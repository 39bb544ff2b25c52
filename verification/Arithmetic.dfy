/** Powers of two, running totals and the nonlinear facts that several modules share. */
module Arithmetic {

  function Pow2(n: nat): (p: nat)
    ensures p >= 1
    ensures n > 0 ==> p >= 2
  {
    if n == 0 then 1 else 2 * Pow2(n - 1)
  }

  /** `torch.cumsum` along a sequence: entry i is the total of the first `i + 1` elements. */
  function Cumsum<T>(s: seq<T>, total: seq<T> -> T): (c: seq<T>)
    ensures |c| == |s|
  {
    seq(|s|, i requires 0 <= i < |s| => total(s[..i + 1]))
  }

  lemma {:induction false} ProductOrder(m: nat, a: int, b: int)
    ensures a <= b ==> m * a <= m * b && a * m <= b * m
  {
  }

  lemma {:induction false} NonNegativeProduct(x: real, y: real)
    requires x >= 0.0 && y >= 0.0
    ensures x * y >= 0.0
  {
  }

  lemma {:induction false} NonNegativeIntProduct(x: int, y: int)
    requires x >= 0 && y >= 0
    ensures x * y >= 0
  {
  }

  /** Two multiples of c that differ by less than c are the same multiple. */
  lemma {:induction false} SameMultiple(m: int, p: int, c: int, r: int)
    requires -c < r < c && m * c == c * p + r
    ensures m == p
  {
    var gap := m - p;
    assert c * gap == r;
    assert gap >= 1 ==> c * gap >= c;
    assert gap <= -1 ==> c * gap <= -c;
  }
}
