/**
 * The character (label) file: how the drawing session turns the text of the
 * file into its queue of labels (`[line.strip() for line in f if line.strip()]`),
 * and how a queue of labels is written back as newline-separated text.
 */
module Labels {
  import opened Util

  /** The characters Python's `str.strip()` removes when called without arguments (those for which `str.isspace()` holds). */
  predicate IsSpace(c: char) {
    || c == ' '
    || ('\t' <= c <= '\r')
    || ('\U{1c}' <= c <= '\U{1f}')
    || c == '\U{85}' || c == '\U{a0}' || c == '\U{1680}'
    || ('\U{2000}' <= c <= '\U{200a}')
    || c == '\U{2028}' || c == '\U{2029}' || c == '\U{202f}' || c == '\U{205f}' || c == '\U{3000}'
  }

  /**
   * The characters that end a line when a text file is iterated in Python's text
   * mode (universal newlines turn "\r\n" and a lone "\r" into "\n").
   */
  predicate IsLineBreak(c: char) {
    c == '\n' || c == '\r'
  }

  predicate NoLineBreak(s: string) {
    forall k :: 0 <= k < |s| ==> !IsLineBreak(s[k])
  }

  /** Drops leading whitespace: everything dropped is whitespace, and the result does not start with whitespace (`TrimStartIsSuffix`: it is what is left of `s`). */
  function TrimStart(s: string): (r: string)
    ensures |r| <= |s|
    ensures forall k :: 0 <= k < |s| - |r| ==> IsSpace(s[k])
    ensures r == [] || !IsSpace(r[0])
    decreases |s|
  {
    if s != [] && IsSpace(s[0]) then TrimStart(s[1..]) else s
  }

  lemma {:induction false} TrimStartIsSuffix(s: string)
    ensures TrimStart(s) == s[|s| - |TrimStart(s)|..]
    decreases |s|
  {
    if s != [] && IsSpace(s[0]) {
      TrimStartIsSuffix(s[1..]);
    }
  }

  /** Drops trailing whitespace: everything dropped is whitespace, and the result does not end with whitespace (`TrimEndIsPrefix`: it is what is left of `s`). */
  function TrimEnd(s: string): (r: string)
    ensures |r| <= |s|
    ensures forall k :: |r| <= k < |s| ==> IsSpace(s[k])
    ensures r == [] || !IsSpace(r[|r| - 1])
    decreases |s|
  {
    if s != [] && IsSpace(s[|s| - 1]) then TrimEnd(s[..|s| - 1]) else s
  }

  lemma {:induction false} TrimEndIsPrefix(s: string)
    ensures TrimEnd(s) == s[..|TrimEnd(s)|]
    decreases |s|
  {
    if s != [] && IsSpace(s[|s| - 1]) {
      TrimEndIsPrefix(s[..|s| - 1]);
    }
  }

  /** Python's `str.strip()`: `s` with its leading and trailing whitespace removed. */
  function Strip(s: string): (r: string)
    ensures |r| <= |s|
    ensures r == [] || (!IsSpace(r[0]) && !IsSpace(r[|r| - 1]))
  {
    TrimEndIsPrefix(TrimStart(s));
    TrimEnd(TrimStart(s))
  }

  /** What `Strip` promises: the result neither starts nor ends with whitespace, is empty only for an all-whitespace string, and holds only characters of `s`. */
  lemma StripProperties(s: string)
    ensures var r := Strip(s);
      && (r == [] || (!IsSpace(r[0]) && !IsSpace(r[|r| - 1])))
      && (r == [] <==> forall k :: 0 <= k < |s| ==> IsSpace(s[k]))
      && (forall c :: c in r ==> c in s)
  {
    TrimStartIsSuffix(s);
    TrimEndIsPrefix(TrimStart(s));
    StripSlice(s, TrimStart(s), Strip(s));
  }

  lemma StripSlice(s: string, t: string, r: string)
    requires |t| <= |s| && t == s[|s| - |t|..]
    requires forall k :: 0 <= k < |s| - |t| ==> IsSpace(s[k])
    requires t == [] || !IsSpace(t[0])
    requires |r| <= |t| && r == t[..|r|]
    requires forall k :: |r| <= k < |t| ==> IsSpace(t[k])
    requires r == [] || !IsSpace(r[|r| - 1])
    ensures r == [] || (!IsSpace(r[0]) && !IsSpace(r[|r| - 1]))
    ensures r == [] <==> forall k :: 0 <= k < |s| ==> IsSpace(s[k])
    ensures forall c :: c in r ==> c in s
  {
    var lo := |s| - |t|;
    forall c | c in r ensures c in s {
      var k :| 0 <= k < |r| && r[k] == c;
      assert r[k] == t[k] == s[lo + k];
    }
    if r != [] {
      assert r[0] == t[0] == s[lo];
      assert !IsSpace(s[lo]);
    } else {
      // A non-empty t starts with a non-space, which TrimEnd would keep.
      assert t == [];
    }
  }

  /** A string is left alone by `Strip` exactly when it is empty or neither starts nor ends with whitespace. */
  lemma StripFixedPoints(s: string)
    ensures Strip(s) == s <==> (s == [] || (!IsSpace(s[0]) && !IsSpace(s[|s| - 1])))
  {
    StripProperties(s);
    if s != [] && !IsSpace(s[0]) && !IsSpace(s[|s| - 1]) {
      assert TrimStart(s) == s;
      assert TrimEnd(s) == s;
    }
  }

  lemma StripIdempotent(s: string)
    ensures Strip(Strip(s)) == Strip(s)
  {
    StripProperties(s);
    StripFixedPoints(Strip(s));
  }

  /** The number of line breaks in `s`. */
  function LineBreaks(s: string): nat
    decreases |s|
  {
    if s == [] then 0 else (if IsLineBreak(s[0]) then 1 else 0) + LineBreaks(s[1..])
  }

  lemma {:induction false} LineBreaksConcat(a: string, b: string)
    ensures LineBreaks(a + b) == LineBreaks(a) + LineBreaks(b)
    decreases |a|
  {
    if a == [] {
      assert a + b == b;
    } else {
      HeadTailAppend(a, b);
      LineBreaksConcat(a[1..], b);
    }
  }

  lemma {:induction false} NoLineBreakCount(s: string)
    ensures NoLineBreak(s) ==> LineBreaks(s) == 0
    decreases |s|
  {
    if s != [] {
      NoLineBreakCount(s[1..]);
      assert NoLineBreak(s) ==> NoLineBreak(s[1..]) by {
        forall k | 0 <= k < |s| - 1 ensures s[1..][k] == s[k + 1] { }
      }
    }
  }

  /**
   * The lines of a text, without their terminators. A text with n line breaks
   * has n + 1 pieces; the last one is empty when the text ends with a break.
   * "\r\n" gives an extra empty piece; pieces that are blank are dropped by
   * `ParseLabels`, so this agrees with Python's line iteration there.
   */
  function SplitLines(s: string): (r: seq<string>)
    ensures |r| == LineBreaks(s) + 1
    decreases |s|
  {
    if s == [] then [[]]
    else if IsLineBreak(s[0]) then [[]] + SplitLines(s[1..])
    else
      var rest := SplitLines(s[1..]);
      [[s[0]] + rest[0]] + rest[1..]
  }

  /** No piece of `SplitLines` holds a line break. */
  lemma {:induction false} SplitLinesHaveNoBreaks(s: string)
    ensures forall k :: 0 <= k < |SplitLines(s)| ==> NoLineBreak(SplitLines(s)[k])
    decreases |s|
  {
    if s != [] {
      SplitLinesHaveNoBreaks(s[1..]);
      var rest := SplitLines(s[1..]);
      if !IsLineBreak(s[0]) {
        var first := [s[0]] + rest[0];
        assert NoLineBreak(first) by {
          forall k | 0 <= k < |first| ensures !IsLineBreak(first[k]) {
            if k > 0 {
              assert first[k] == rest[0][k - 1];
            }
          }
        }
        assert forall k :: 1 <= k < |rest| ==> rest[1..][k - 1] == rest[k];
      }
    }
  }

  /** The stripped, non-blank lines in order, duplicates kept (the list comprehension of the session start). */
  function NonBlank(lines: seq<string>): (r: seq<string>)
    ensures |r| <= |lines|
    ensures forall k :: 0 <= k < |r| ==> r[k] != []
  {
    if lines == [] then []
    else (if Strip(lines[0]) == [] then [] else [Strip(lines[0])]) + NonBlank(lines[1..])
  }

  /** The labels of a label file: at most one per line. */
  function ParseLabels(text: string): (r: seq<string>)
    ensures |r| <= LineBreaks(text) + 1
  {
    NonBlank(SplitLines(text))
  }

  /** Python's `'\n'.join(labels)`: labels without line breaks give a text with one break between each two of them. */
  function JoinLines(labels: seq<string>): (r: string)
    ensures (forall k :: 0 <= k < |labels| ==> NoLineBreak(labels[k])) ==> LineBreaks(r) + 1 == |labels| || labels == []
  {
    if labels == [] then []
    else if |labels| == 1 then
      NoLineBreakCount(labels[0]);
      labels[0]
    else
      var rest := JoinLines(labels[1..]);
      NoLineBreakCount(labels[0]);
      LineBreaksConcat(labels[0], "\n");
      LineBreaksConcat(labels[0] + "\n", rest);
      labels[0] + "\n" + rest
  }

  /** What a label read from the file looks like: non-empty, already stripped (see `StripFixedPoints`), one line. */
  predicate IsLabel(l: string) {
    l != [] && !IsSpace(l[0]) && !IsSpace(l[|l| - 1]) && NoLineBreak(l)
  }

  lemma {:induction false} NonBlankConcat(a: seq<string>, b: seq<string>)
    ensures NonBlank(a + b) == NonBlank(a) + NonBlank(b)
    decreases |a|
  {
    if a != [] {
      HeadTailAppend(a, b);
      NonBlankConcat(a[1..], b);
      var head := if Strip(a[0]) == [] then [] else [Strip(a[0])];
      AppendAssoc(head, NonBlank(a[1..]), NonBlank(b));
    } else {
      assert a + b == b;
    }
  }

  lemma {:induction false} NonBlankAreLabels(lines: seq<string>)
    requires forall k :: 0 <= k < |lines| ==> NoLineBreak(lines[k])
    ensures forall k :: 0 <= k < |NonBlank(lines)| ==> IsLabel(NonBlank(lines)[k])
    decreases |lines|
  {
    if lines != [] {
      var t := Strip(lines[0]);
      StripProperties(lines[0]);
      assert NoLineBreak(t) by {
        forall k | 0 <= k < |t| ensures !IsLineBreak(t[k]) {
          assert t[k] in t;
        }
      }
      var head := if t == [] then [] else [t];
      var tail := NonBlank(lines[1..]);
      NonBlankAreLabels(lines[1..]);
      assert NonBlank(lines) == head + tail;
      forall k | 0 <= k < |head + tail| ensures IsLabel((head + tail)[k]) {
        if k >= |head| {
          assert (head + tail)[k] == tail[k - |head|];
        }
      }
    }
  }

  /** Every label the session reads is non-empty, stripped and a single line. */
  lemma ParsedLabelsAreLabels(text: string)
    ensures forall k :: 0 <= k < |ParseLabels(text)| ==> IsLabel(ParseLabels(text)[k])
  {
    SplitLinesHaveNoBreaks(text);
    NonBlankAreLabels(SplitLines(text));
  }

  /** A line break in front ends an empty first line. */
  lemma SplitLinesBreak(c: char, t: string)
    requires IsLineBreak(c)
    ensures SplitLines([c] + t) == [[]] + SplitLines(t)
  {
    assert ([c] + t)[0] == c;
    assert ([c] + t)[1..] == t;
  }

  /** Any other character in front joins the first line. */
  lemma SplitLinesChar(c: char, t: string)
    requires !IsLineBreak(c)
    ensures SplitLines([c] + t) == [[c] + SplitLines(t)[0]] + SplitLines(t)[1..]
  {
    assert ([c] + t)[0] == c;
    assert ([c] + t)[1..] == t;
  }

  /** Splitting a text made of two texts joined by a line break gives the lines of the first followed by the lines of the second. */
  lemma {:induction false} SplitLinesConcat(a: string, b: string)
    ensures SplitLines(a + "\n" + b) == SplitLines(a) + SplitLines(b)
    decreases |a|
  {
    if a == [] {
      assert a + "\n" + b == ['\n'] + b;
      SplitLinesBreak('\n', b);
    } else {
      var t := a[1..];
      assert a == [a[0]] + t;
      assert a + "\n" + b == [a[0]] + (t + "\n" + b);
      SplitLinesConcat(t, b);
      if IsLineBreak(a[0]) {
        BreakStep(a[0], t, t + "\n" + b, b);
      } else {
        CharStep(a[0], t, t + "\n" + b, b);
      }
    }
  }

  /** The inductive step of `SplitLinesConcat` for a line break in front of `t` and `u`, whose lines are those of `t` followed by those of `b`. */
  lemma BreakStep(c: char, t: string, u: string, b: string)
    requires IsLineBreak(c)
    requires SplitLines(u) == SplitLines(t) + SplitLines(b)
    ensures SplitLines([c] + u) == SplitLines([c] + t) + SplitLines(b)
  {
    SplitLinesBreak(c, t);
    SplitLinesBreak(c, u);
    AppendAssoc([[]], SplitLines(t), SplitLines(b));
  }

  /** The inductive step of `SplitLinesConcat` for any other character in front. */
  lemma CharStep(c: char, t: string, u: string, b: string)
    requires !IsLineBreak(c)
    requires SplitLines(u) == SplitLines(t) + SplitLines(b)
    ensures SplitLines([c] + u) == SplitLines([c] + t) + SplitLines(b)
  {
    SplitLinesChar(c, t);
    SplitLinesChar(c, u);
    var rt, rb := SplitLines(t), SplitLines(b);
    HeadTailAppend(rt, rb);
    AppendAssoc([[c] + rt[0]], rt[1..], rb);
  }



  lemma {:induction false} SplitLinesSingle(l: string)
    requires NoLineBreak(l)
    ensures SplitLines(l) == [l]
    decreases |l|
  {
    if l != [] {
      SplitLinesSingle(l[1..]);
      assert [l[0]] + l[1..] == l;
    }
  }

  /** Labels come out in file order: the labels of two texts joined by a line break are those of the first followed by those of the second. */
  lemma ParseLabelsConcat(a: string, b: string)
    ensures ParseLabels(a + "\n" + b) == ParseLabels(a) + ParseLabels(b)
  {
    SplitLinesConcat(a, b);
    NonBlankConcat(SplitLines(a), SplitLines(b));
  }

  lemma ParseSingleLabel(l: string)
    requires IsLabel(l)
    ensures ParseLabels(l) == [l]
  {
    SplitLinesSingle(l);
    StripFixedPoints(l);
    assert NonBlank([l]) == [l] + NonBlank([]);
  }

  lemma ParseEmpty()
    ensures ParseLabels([]) == []
  {
    assert SplitLines([]) == [[]];
    assert Strip([]) == [];
    assert NonBlank([[]]) == [] + NonBlank([]);
  }

  lemma ParseCons(l: string, text: string, labels: seq<string>)
    requires IsLabel(l) && ParseLabels(text) == labels
    ensures ParseLabels(l + "\n" + text) == [l] + labels
  {
    ParseLabelsConcat(l, text);
    ParseSingleLabel(l);
  }

  /** Writing labels one per line and reading the text back gives the same labels, in the same order, duplicates included. */
  lemma {:induction false} ParseJoinRoundTrip(labels: seq<string>)
    requires forall k :: 0 <= k < |labels| ==> IsLabel(labels[k])
    ensures ParseLabels(JoinLines(labels)) == labels
    decreases |labels|
  {
    if labels == [] {
      ParseEmpty();
    } else if |labels| == 1 {
      ParseSingleLabel(labels[0]);
    } else {
      var rest := labels[1..];
      ParseJoinRoundTrip(rest);
      ParseCons(labels[0], JoinLines(rest), rest);
      assert [labels[0]] + rest == labels;
    }
  }
}
