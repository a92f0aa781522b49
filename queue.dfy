/**
 * The label queue of a drawing session: which label is being drawn
 * (`current_char_index`, 0-based) and which drawing of it (`current_draw_number`,
 * 1-based), how a save advances them, which path each save writes, and the
 * list of labels still to draw that is written to the resume file.
 */
module LabelQueue {
  import opened Optional
  import opened Util
  import opened Labels
  import opened Paths

  /** The pair (`current_char_index`, `current_draw_number`). */
  datatype Progress = Progress(index: nat, drawNumber: int)

  /** Where a fresh application starts. */
  const Start := Progress(0, 1)

  /** The number of drawings saved to reach `p` when every label gets `frequency` drawings. */
  function Completed(p: Progress, frequency: int): int
  {
    p.index * frequency + p.drawNumber - 1
  }

  /** `p` names a drawing still to be made: a label of the list and a drawing number within the frequency. */
  predicate InSession(p: Progress, frequency: int, count: nat)
  {
    p.index < count && 1 <= p.drawNumber <= frequency
  }

  /**
   * The counter update after a save: the drawing number goes up by one and,
   * once it passes the frequency, starts again at 1 on the next label. From a
   * drawing within the frequency, the drawing number stays within the
   * frequency and the label index moves forward by at most one.
   */
  function Advance(p: Progress, frequency: int): (q: Progress)
    ensures 1 <= p.drawNumber <= frequency ==>
      && 1 <= q.drawNumber <= frequency
      && (q.index == p.index || q.index == p.index + 1)
  {
    if p.drawNumber + 1 > frequency then Progress(p.index + 1, 1) else Progress(p.index, p.drawNumber + 1)
  }

  /** From a drawing within the frequency, a save completes exactly one more drawing. */
  lemma AdvanceCompletesOne(p: Progress, frequency: int)
    requires 1 <= p.drawNumber <= frequency
    ensures Completed(Advance(p, frequency), frequency) == Completed(p, frequency) + 1
  {
    if p.drawNumber + 1 > frequency {
      assert (p.index + 1) * frequency == p.index * frequency + frequency;
    }
  }

  /** The progress after `k` saves: from a drawing within the frequency, the drawing number stays within it and the label index moves on by at most k. */
  function AdvanceTimes(p: Progress, frequency: int, k: nat): (q: Progress)
    ensures 1 <= p.drawNumber <= frequency ==>
      && 1 <= q.drawNumber <= frequency
      && p.index <= q.index <= p.index + k
  {
    if k == 0 then p else Advance(AdvanceTimes(p, frequency, k - 1), frequency)
  }

  /** After k saves from the start, k drawings are completed and the drawing number is within the frequency. */
  lemma {:induction false} SavesFromStart(frequency: int, k: nat)
    requires frequency >= 1
    ensures 1 <= AdvanceTimes(Start, frequency, k).drawNumber <= frequency
    ensures Completed(AdvanceTimes(Start, frequency, k), frequency) == k
  {
    if k > 0 {
      SavesFromStart(frequency, k - 1);
      AdvanceCompletesOne(AdvanceTimes(Start, frequency, k - 1), frequency);
    }
  }



  /** The k-th save (counting from 0) draws label k / frequency for the (k % frequency + 1)-th time. */
  lemma SaveOrder(frequency: int, k: nat)
    requires frequency >= 1
    ensures AdvanceTimes(Start, frequency, k) == Progress(k / frequency, k % frequency + 1)
  {
    SavesFromStart(frequency, k);
    var q := AdvanceTimes(Start, frequency, k);
    DivModUnique(k, frequency, q.index, q.drawNumber - 1);
  }

  /** With the drawing number within the frequency, the label index is below `count` exactly when fewer than count * frequency drawings are completed. */
  lemma IndexBound(p: Progress, frequency: int, count: nat)
    requires frequency >= 1 && 1 <= p.drawNumber <= frequency
    ensures p.index < count <==> Completed(p, frequency) < count * frequency
  {
    if p.index < count {
      MulMonotone(p.index + 1, count, frequency);
      assert (p.index + 1) * frequency == p.index * frequency + frequency;
    } else {
      MulMonotone(count, p.index, frequency);
    }
  }

  /** Exactly frequency * count saves finish a list of count labels: one fewer leaves a label to draw. */
  lemma SessionLength(frequency: int, count: nat)
    requires frequency >= 1
    ensures AdvanceTimes(Start, frequency, frequency * count).index == count
    ensures forall k: nat :: k < frequency * count ==> InSession(AdvanceTimes(Start, frequency, k), frequency, count)
  {
    var n := frequency * count;
    SavesFromStart(frequency, n);
    var q := AdvanceTimes(Start, frequency, n);
    assert count * frequency == n;
    IndexBound(q, frequency, count);
    assert (count + 1) * frequency == n + frequency;
    IndexBound(q, frequency, count + 1);
    forall k: nat | k < n
      ensures InSession(AdvanceTimes(Start, frequency, k), frequency, count)
    {
      SavesFromStart(frequency, k);
      IndexBound(AdvanceTimes(Start, frequency, k), frequency, count);
    }
  }

  /** The path the k-th save of a session writes: drawing k mod frequency + 1 of label k div frequency. */
  function SavePath(base: string, characters: seq<string>, frequency: int, k: nat): (r: string)
    requires frequency >= 1 && k < frequency * |characters|
    ensures k / frequency < |characters| && r == ArtifactPath(base, characters[k / frequency], k % frequency + 1)
  {
    SessionLength(frequency, |characters|);
    SaveOrder(frequency, k);
    var p := AdvanceTimes(Start, frequency, k);
    ArtifactPath(base, characters[p.index], p.drawNumber)
  }

  /** The k-th save writes the drawing the counters name after k saves. */
  lemma SavePathAt(base: string, characters: seq<string>, frequency: int, k: nat, p: Progress)
    requires frequency >= 1 && k < frequency * |characters|
    requires AdvanceTimes(Start, frequency, k) == p
    ensures p.index < |characters| && 1 <= p.drawNumber
    ensures SavePath(base, characters, frequency, k) == ArtifactPath(base, characters[p.index], p.drawNumber)
  {
    SessionLength(frequency, |characters|);
  }

  /** Python's `[s] * n`. */
  function Repeat(s: string, n: int): (r: seq<string>)
    ensures |r| == if n > 0 then n else 0
    ensures forall k :: 0 <= k < |r| ==> r[k] == s
    decreases n
  {
    if n <= 0 then [] else [s] + Repeat(s, n - 1)
  }

  /**
   * The resume list: the current label once for every drawing of it not yet
   * saved (when the drawing number is within the frequency), then every later
   * label once.
   */
  function Remaining(characters: seq<string>, frequency: int, p: Progress): (r: seq<string>)
    ensures InSession(p, frequency, |characters|) ==> |r| == frequency - p.drawNumber + |characters| - p.index
  {
    (if p.index < |characters| && p.drawNumber <= frequency
     then Repeat(characters[p.index], frequency - p.drawNumber + 1) else [])
    + (if p.index + 1 <= |characters| then characters[p.index + 1..] else [])
  }

  /** Entry by entry: the current label for its outstanding drawings, then the later labels in order. */
  lemma RemainingShape(characters: seq<string>, frequency: int, p: Progress)
    requires InSession(p, frequency, |characters|)
    ensures var r := Remaining(characters, frequency, p);
      var own := frequency - p.drawNumber + 1;
      && |r| == own + |characters| - p.index - 1
      && (forall k :: 0 <= k < own ==> r[k] == characters[p.index])
      && (forall k :: own <= k < |r| ==> r[k] == characters[p.index + 1 + k - own])
  {
  }

  /** Before any save the list is the first label `frequency` times, then the others once each. */
  lemma RemainingAtStart(characters: seq<string>, frequency: int)
    requires characters != [] && frequency >= 1
    ensures Remaining(characters, frequency, Start) == Repeat(characters[0], frequency) + characters[1..]
  {
  }

  /** A save that is not the last drawing of its label removes one entry from the front of the list. */
  lemma RemainingWithinLabel(characters: seq<string>, frequency: int, p: Progress)
    requires InSession(p, frequency, |characters|) && p.drawNumber < frequency
    ensures Remaining(characters, frequency, Advance(p, frequency)) == Remaining(characters, frequency, p)[1..]
  {
    var c := characters[p.index];
    var n := frequency - p.drawNumber + 1;
    assert Repeat(c, n) == [c] + Repeat(c, n - 1);
  }

  /**
   * The last save of a label removes its one remaining entry, and the next
   * label, listed once until then, is listed `frequency` times from then on.
   */
  lemma RemainingAfterLabel(characters: seq<string>, frequency: int, p: Progress)
    requires InSession(p, frequency, |characters|) && p.drawNumber == frequency
    ensures Remaining(characters, frequency, p) == [characters[p.index]] + characters[p.index + 1..]
    ensures p.index + 1 < |characters| ==>
      Remaining(characters, frequency, Advance(p, frequency))
        == Repeat(characters[p.index + 1], frequency) + characters[p.index + 2..]
    ensures p.index + 1 == |characters| ==> Remaining(characters, frequency, Advance(p, frequency)) == []
  {
    assert Repeat(characters[p.index], 1) == [characters[p.index]];
  }

  /** Within a session the list is empty exactly when every label has been drawn. */
  lemma RemainingEmptyIffExhausted(characters: seq<string>, frequency: int, p: Progress)
    requires 1 <= p.drawNumber
    requires p.index < |characters| ==> p.drawNumber <= frequency
    ensures Remaining(characters, frequency, p) == [] <==> p.index >= |characters|
  {
    if p.index < |characters| {
      assert |Repeat(characters[p.index], frequency - p.drawNumber + 1)| > 0;
    }
  }

  /** The resume file, when one is written: where it goes and its text. */
  datatype ResumeFile = ResumeFile(path: string, text: string)

  /**
   * What closing the session writes: nothing when no labels were loaded, no
   * label file was chosen or nothing remains; otherwise the remaining labels,
   * one per line, in `resume_<label file name>` in the base folder.
   */
  function Resume(base: string, charFile: string, characters: seq<string>, frequency: int, p: Progress): (r: Option<ResumeFile>)
    ensures r.Some? <==> characters != [] && charFile != [] && Remaining(characters, frequency, p) != []
  {
    if characters == [] || charFile == [] then None
    else
      var remaining := Remaining(characters, frequency, p);
      if remaining == [] then None
      else Some(ResumeFile(ResumePath(base, charFile), JoinLines(remaining)))
  }

  /** Reading a resume file back as a label file gives exactly the remaining list, in order. */
  lemma ResumeRoundTrip(base: string, charFile: string, characters: seq<string>, frequency: int, p: Progress)
    requires forall k :: 0 <= k < |characters| ==> IsLabel(characters[k])
    requires Resume(base, charFile, characters, frequency, p).Some?
    ensures ParseLabels(Resume(base, charFile, characters, frequency, p).value.text) == Remaining(characters, frequency, p)
    ensures Basename(Resume(base, charFile, characters, frequency, p).value.path) == "resume_" + Basename(charFile)
  {
    var r := Remaining(characters, frequency, p);
    forall k | 0 <= k < |r| ensures IsLabel(r[k]) {
      RemainingFromList(characters, frequency, p, k);
    }
    ParseJoinRoundTrip(r);
    ResumePathName(base, charFile);
  }

  lemma RemainingFromList(characters: seq<string>, frequency: int, p: Progress, k: int)
    requires 0 <= k < |Remaining(characters, frequency, p)|
    ensures Remaining(characters, frequency, p)[k] in characters
  {
    var head := if p.index < |characters| && p.drawNumber <= frequency
      then Repeat(characters[p.index], frequency - p.drawNumber + 1) else [];
    var tail := if p.index + 1 <= |characters| then characters[p.index + 1..] else [];
    if k >= |head| {
      assert (head + tail)[k] == tail[k - |head|];
      assert tail[k - |head|] == characters[p.index + 1 + k - |head|];
    }
  }

  /**
   * Loading the resume file into a new session with the same frequency gives
   * every listed entry `frequency` drawings again, so the resumed session draws
   * exactly what was left only when the frequency is 1.
   */
  lemma ResumedSessionLength(characters: seq<string>, frequency: int, p: Progress)
    requires InSession(p, frequency, |characters|)
    ensures frequency * |Remaining(characters, frequency, p)| == frequency * |characters| - Completed(p, frequency)
        <==> frequency == 1
  {
    RemainingShape(characters, frequency, p);
    var own := frequency - p.drawNumber + 1;
    var later := |characters| - p.index - 1;
    assert frequency * (own + later) == frequency * own + frequency * later;
    assert frequency * |characters| - Completed(p, frequency) == frequency * later + own;
    assert frequency * own - own == (frequency - 1) * own;
    if frequency != 1 {
      MulMonotone(1, frequency - 1, own);
    }
  }
}
