/**
 * Concrete label queues: the file names of a small session, the resume list
 * after one save, and a duplicated label.
 */
module QueueScenarios {
  import opened Paths
  import opened LabelQueue

  /** The four drawings of labels "A" and "B" at frequency 2, in save order. */
  const ExampleFiles: seq<string> := ["out/A/A_1.png", "out/A/A_2.png", "out/B/B_1.png", "out/B/B_2.png"]

  lemma SaveExampleAt(k: nat)
    requires k < 4
    ensures SavePath("out", ["A", "B"], 2, k) == ExampleFiles[k]
  {
    var labels := ["A", "B"];
    SaveOrder(2, k);
    var p := Progress(k / 2, k % 2 + 1);
    SavePathAt("out", labels, 2, k, p);
    if k == 0 {
      PathA1();
    } else if k == 1 {
      PathA2();
    } else if k == 2 {
      PathB1();
    } else {
      PathB2();
    }
  }

  lemma PathA1()
    ensures ArtifactPath("out", "A", 1) == "out/A/A_1.png"
  {
    assert NatToString(1) == "1";
    ArtifactPathShape("out", "A", 1);
  }

  lemma PathA2()
    ensures ArtifactPath("out", "A", 2) == "out/A/A_2.png"
  {
    assert NatToString(2) == "2";
    ArtifactPathShape("out", "A", 2);
  }

  lemma PathB1()
    ensures ArtifactPath("out", "B", 1) == "out/B/B_1.png"
  {
    assert NatToString(1) == "1";
    ArtifactPathShape("out", "B", 1);
  }

  lemma PathB2()
    ensures ArtifactPath("out", "B", 2) == "out/B/B_2.png"
  {
    assert NatToString(2) == "2";
    ArtifactPathShape("out", "B", 2);
  }

  /** Labels "A" and "B" with frequency 2 in `out` are saved to A/A_1, A/A_2, B/B_1 and B/B_2, in that order, and the fourth save ends the session. */
  lemma SavePathsExample()
    ensures forall k: nat :: k < 4 ==> SavePath("out", ["A", "B"], 2, k) == ExampleFiles[k]
    ensures AdvanceTimes(Start, 2, 4).index == 2
  {
    forall k: nat | k < 4
      ensures SavePath("out", ["A", "B"], 2, k) == ExampleFiles[k]
    {
      SaveExampleAt(k);
    }
    SessionLength(2, 2);
  }

  /** A label listed twice has its drawings written twice to the same files: the second pass overwrites the first. */
  lemma DuplicateLabelsShareFiles()
    ensures SavePath("out", ["A", "A"], 1, 0) == SavePath("out", ["A", "A"], 1, 1)
  {
    SaveOrder(1, 0);
    SaveOrder(1, 1);
    SavePathAt("out", ["A", "A"], 1, 0, Progress(0, 1));
    SavePathAt("out", ["A", "A"], 1, 1, Progress(1, 1));
  }

  /** Labels "A" and "B" with frequency 2, after one save: one "A" is left, then "B". */
  lemma RemainingExample()
    ensures Remaining(["A", "B"], 2, Advance(Start, 2)) == ["A", "B"]
  {
    assert Repeat("A", 1) == ["A"];
  }
}
