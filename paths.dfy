/**
 * The file names a drawing session writes: `base/<char>/<char>_<n>.png` for each
 * drawing and `base/resume_<file name of the character file>` for the resume list.
 * Paths follow POSIX `os.path.join` and `os.path.basename`; numbers are
 * written as Python's `str()` writes a positive integer.
 */
module Paths {
  import opened Util

  predicate IsDigit(c: char) {
    '0' <= c <= '9'
  }

  function DigitChar(d: int): (c: char)
    requires 0 <= d < 10
    ensures IsDigit(c)
  {
    (48 + d) as char
  }

  function DigitValue(c: char): (d: int)
    requires IsDigit(c)
    ensures 0 <= d < 10 && DigitChar(d) == c
  {
    c as int - 48
  }

  /** Decimal notation of a natural number: digits only, no leading zero. */
  function NatToString(n: nat): (s: string)
    ensures s != [] && forall k :: 0 <= k < |s| ==> IsDigit(s[k])
    ensures s[0] == '0' ==> n == 0 && |s| == 1
    decreases n
  {
    if n < 10 then [DigitChar(n)] else NatToString(n / 10) + [DigitChar(n % 10)]
  }

  /** The value of a string of decimal digits. */
  function DecimalValue(s: string): nat
    requires forall k :: 0 <= k < |s| ==> IsDigit(s[k])
    decreases |s|
  {
    if s == [] then 0 else DecimalValue(s[..|s| - 1]) * 10 + DigitValue(s[|s| - 1])
  }

  /** Reading back the decimal notation of `n` gives `n`. */
  lemma {:induction false} DecimalRoundTrip(n: nat)
    ensures DecimalValue(NatToString(n)) == n
    decreases n
  {
    var s := NatToString(n);
    if n >= 10 {
      var p := NatToString(n / 10);
      assert s[..|s| - 1] == p;
      DecimalRoundTrip(n / 10);
    }
  }

  lemma NatToStringInjective(m: nat, n: nat)
    requires m != n
    ensures NatToString(m) != NatToString(n)
  {
    DecimalRoundTrip(m);
    DecimalRoundTrip(n);
  }

  /** POSIX `os.path.join(a, b)`: an absolute `b` replaces `a`; otherwise a '/' is put between them unless `a` is empty or already ends with one (`PathJoinParts`). */
  function PathJoin(a: string, b: string): string
  {
    if b != [] && b[0] == '/' then b
    else if a == [] || a[|a| - 1] == '/' then a + b
    else a + "/" + b
  }

  /**
   * What `PathJoin` gives: `b` always ends the result, and an absolute `b` is
   * the whole result. A relative `b` follows all of `a`, with one '/' between
   * them exactly when `a` is non-empty and does not already end with '/'.
   */
  lemma PathJoinParts(a: string, b: string)
    ensures var r := PathJoin(a, b);
      && |b| <= |r| && r[|r| - |b|..] == b
      && (b != [] && b[0] == '/' ==> r == b)
      && (!(b != [] && b[0] == '/') ==>
        && |a| + |b| <= |r| <= |a| + |b| + 1 && r[..|a|] == a
        && (|r| == |a| + |b| + 1 <==> a != [] && a[|a| - 1] != '/')
        && (|r| == |a| + |b| + 1 ==> r[|a|] == '/'))
  {
  }

  /** What `PathJoin` puts before a relative second component. */
  function JoinPrefix(a: string): (r: string)
    ensures r == [] || r[|r| - 1] == '/'
  {
    if a == [] || a[|a| - 1] == '/' then a else a + "/"
  }

  /** POSIX `os.path.basename(p)`: what follows the last '/'. */
  function Basename(p: string): (r: string)
    ensures '/' !in r
    decreases |p|
  {
    if p == [] || p[|p| - 1] == '/' then [] else Basename(p[..|p| - 1]) + [p[|p| - 1]]
  }

  /** The base name is the part of the path after its last '/': a suffix of the path, preceded by '/' unless it is the whole path. */
  lemma {:induction false} BasenameIsSuffix(p: string)
    ensures |Basename(p)| <= |p| && Basename(p) == p[|p| - |Basename(p)|..]
    ensures |Basename(p)| < |p| ==> p[|p| - |Basename(p)| - 1] == '/'
    decreases |p|
  {
    if p != [] && p[|p| - 1] != '/' {
      var q, last := p[..|p| - 1], p[|p| - 1];
      assert p == q + [last];
      BasenameIsSuffix(q);
      SuffixSnoc(q, last, |q| - |Basename(q)|);
    }
  }

  /** A character other than '/' at the end of a path belongs to its base name. */
  lemma BasenameSnoc(q: string, x: char)
    requires x != '/'
    ensures Basename(q + [x]) == Basename(q) + [x]
  {
    var p := q + [x];
    assert p[|p| - 1] == x;
    assert p[..|p| - 1] == q;
  }

  lemma {:induction false} BasenameAfterSlash(a: string, b: string)
    requires a == [] || a[|a| - 1] == '/'
    requires '/' !in b
    ensures Basename(a + b) == b
    decreases |b|
  {
    if b == [] {
      assert a + b == a;
    } else {
      var c, last := b[..|b| - 1], b[|b| - 1];
      assert b == c + [last];
      assert last in b;
      assert forall x :: x in c ==> x in b;
      BasenameAfterSlash(a, c);
      assert a + b == (a + c) + [last];
      BasenameSnoc(a + c, last);
    }
  }

  /** Joining a base with a plain file name (no '/') and taking the base name gives that file name back. */
  lemma BasenameOfJoin(a: string, b: string)
    requires '/' !in b
    ensures Basename(PathJoin(a, b)) == b
  {
    if b != [] {
      assert b[0] in b;
    }
    BasenameAfterSlash(JoinPrefix(a), b);
  }

  /** The file name of a drawing, `label_n.png`: it starts with the label and holds a '/' only where the label does. */
  function ArtifactName(character: string, n: nat): (r: string)
    ensures |character| < |r| && r[..|character|] == character
    ensures '/' in r <==> '/' in character
  {
    NameTailHasNoSlash(NatToString(n));
    character + ("_" + NatToString(n) + ".png")
  }

  lemma NameTailHasNoSlash(digits: string)
    requires forall k :: 0 <= k < |digits| ==> IsDigit(digits[k])
    ensures '/' !in "_" + digits + ".png"
  {
    var tail := "_" + digits + ".png";
    forall k | 0 <= k < |tail| ensures tail[k] != '/' {
      if 1 <= k < 1 + |digits| {
        assert tail[k] == digits[k - 1];
      }
    }
  }

  /** Where the n-th drawing of `character` is written (app.py: `char_folder` joined with the file name): for a label without '/', a path whose base name is that file name. */
  function ArtifactPath(base: string, character: string, n: nat): (r: string)
    ensures '/' !in character ==> Basename(r) == ArtifactName(character, n)
  {
    var folder, name := PathJoin(base, character), ArtifactName(character, n);
    if '/' in character then PathJoin(folder, name)
    else
      BasenameOfJoin(folder, name);
      PathJoin(folder, name)
  }

  /** Where the resume list is written: a path whose base name is `resume_` followed by the character file's own base name. */
  function ResumePath(base: string, charFile: string): (r: string)
    ensures Basename(r) == "resume_" + Basename(charFile)
  {
    PrefixedNameInFolder(base, "resume_", Basename(charFile));
    PathJoin(base, "resume_" + Basename(charFile))
  }

  /** The resume file lies directly in the base folder (its name is given by `ResumePath`'s contract). */
  lemma ResumePathName(base: string, charFile: string)
    ensures ResumePath(base, charFile) == JoinPrefix(base) + ("resume_" + Basename(charFile))
  {
    PrefixedNameInFolder(base, "resume_", Basename(charFile));
  }

  lemma PrefixedNameInFolder(base: string, prefix: string, name: string)
    requires prefix != [] && prefix[0] != '/' && '/' !in prefix && '/' !in name
    ensures Basename(PathJoin(base, prefix + name)) == prefix + name
    ensures PathJoin(base, prefix + name) == JoinPrefix(base) + (prefix + name)
  {
    var full := prefix + name;
    assert '/' !in full;
    assert full[0] == prefix[0];
    BasenameOfJoin(base, full);
  }

  /** The usual case: a base folder not ending in '/' and a label neither starting nor ending with '/' give `base/label/label_n.png`. */
  lemma ArtifactPathShape(base: string, character: string, n: nat)
    requires base != [] && base[|base| - 1] != '/'
    requires character != [] && character[0] != '/' && character[|character| - 1] != '/'
    ensures ArtifactPath(base, character, n) == (base + "/" + character) + "/" + ArtifactName(character, n)
  {
    var folder := PathJoin(base, character);
    assert folder == base + "/" + character;
    var name := ArtifactName(character, n);
    assert name[0] == character[0];
    assert folder[|folder| - 1] == character[|character| - 1];
  }



  /** Two different drawing numbers of the same character never share a path, whatever the base folder and character. */
  lemma ArtifactPathsDistinct(base: string, character: string, m: nat, n: nat)
    requires m != n
    ensures ArtifactPath(base, character, m) != ArtifactPath(base, character, n)
  {
    var folder := PathJoin(base, character);
    var am, an := ArtifactName(character, m), ArtifactName(character, n);
    ArtifactNamesDistinct(character, m, n);
    // Both names start with the same character, so the folder contributes the same prefix to both paths.
    if am[0] != '/' {
      JoinRelative(folder, am);
      JoinRelative(folder, an);
      if ArtifactPath(base, character, m) == ArtifactPath(base, character, n) {
        AppendCancelLeft(JoinPrefix(folder), am, an);
      }
    }
  }

  /** Different drawing numbers give different file names, which start with the same character. */
  lemma ArtifactNamesDistinct(character: string, m: nat, n: nat)
    requires m != n
    ensures ArtifactName(character, m) != ArtifactName(character, n)
    ensures ArtifactName(character, m)[0] == ArtifactName(character, n)[0]
  {
    var dm, dn := NatToString(m), NatToString(n);
    var tm, tn := "_" + dm + ".png", "_" + dn + ".png";
    assert ArtifactName(character, m) == character + tm;
    assert ArtifactName(character, n) == character + tn;
    NatToStringInjective(m, n);
    if character + tm == character + tn {
      AppendCancelLeft(character, tm, tn);
      AppendCancelRight("_" + dm, "_" + dn, ".png");
      AppendCancelLeft("_", dm, dn);
    }
    if character == [] {
      assert tm[0] == '_' == tn[0];
    }
  }

  /** A relative second part is put after `JoinPrefix` of the first. */
  lemma JoinRelative(a: string, b: string)
    requires !(b != [] && b[0] == '/')
    ensures PathJoin(a, b) == JoinPrefix(a) + b
  {
  }
}
