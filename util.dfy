/** Facts about sequences and integer arithmetic that the domain modules share. */
module Util {

  lemma AppendAssoc<T>(p: seq<T>, q: seq<T>, r: seq<T>)
    ensures p + (q + r) == (p + q) + r
  {
  }

  lemma HeadTailAppend<T>(p: seq<T>, q: seq<T>)
    requires p != []
    ensures (p + q)[0] == p[0] && (p + q)[1..] == p[1..] + q
  {
    assert (p + q)[1..] == p[1..] + q;
  }

  lemma SuffixSnoc<T>(q: seq<T>, x: T, i: int)
    requires 0 <= i <= |q|
    ensures (q + [x])[i..] == q[i..] + [x]
    ensures i > 0 ==> (q + [x])[i - 1] == q[i - 1]
  {
    assert (q + [x])[i..] == q[i..] + [x];
  }

  lemma AppendCancelLeft<T>(p: seq<T>, a: seq<T>, b: seq<T>)
    requires p + a == p + b
    ensures a == b
  {
    assert a == (p + a)[|p|..];
    assert b == (p + b)[|p|..];
  }

  lemma AppendCancelRight<T>(a: seq<T>, b: seq<T>, q: seq<T>)
    requires a + q == b + q
    ensures a == b
  {
    assert a == (a + q)[..|a + q| - |q|];
    assert b == (b + q)[..|b + q| - |q|];
  }

  lemma MulMonotone(a: int, b: int, f: int)
    requires a <= b && f >= 0
    ensures a * f <= b * f
  {
    assert b * f - a * f == (b - a) * f;
  }

  /** Quotient and remainder by a positive divisor are unique. */
  lemma DivModUnique(k: int, f: int, q: int, r: int)
    requires f > 0 && 0 <= r < f && k == q * f + r
    ensures q == k / f && r == k % f
  {
    var q', r' := k / f, k % f;
    assert k == q' * f + r';
    if q < q' {
      assert q * f + f <= q' * f by { MulMonotone(q + 1, q', f); }
    } else if q > q' {
      assert q' * f + f <= q * f by { MulMonotone(q' + 1, q, f); }
    }
  }
}
