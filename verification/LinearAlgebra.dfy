/** Vectors and matrices over the reals: what one attention head's tensors are made of. */
module LinearAlgebra {

  type Vec = seq<real>

  // A matrix is the sequence of its rows.
  type Matrix = seq<Vec>

  predicate HasShape(P: Matrix, rows: nat, cols: nat) {
    |P| == rows && forall i :: 0 <= i < rows ==> |P[i]| == cols
  }

  function Dot(a: Vec, b: Vec): real
    requires |a| == |b|
  {
    if a == [] then 0.0 else a[0] * b[0] + Dot(a[1..], b[1..])
  }

  function Add(a: Vec, b: Vec): (r: Vec)
    requires |a| == |b|
    ensures |r| == |a|
  {
    seq(|a|, i requires 0 <= i < |a| => a[i] + b[i])
  }

  function Sub(a: Vec, b: Vec): (r: Vec)
    requires |a| == |b|
    ensures |r| == |a|
  {
    seq(|a|, i requires 0 <= i < |a| => a[i] - b[i])
  }

  function Scale(t: real, a: Vec): (r: Vec)
    ensures |r| == |a|
  {
    seq(|a|, i requires 0 <= i < |a| => t * a[i])
  }

  function Zero(n: nat): Vec {
    seq(n, _ => 0.0)
  }

  function Unit(n: nat, k: nat): Vec {
    seq(n, i => if i == k then 1.0 else 0.0)
  }

  function Column(P: Matrix, cols: nat, j: nat): Vec
    requires HasShape(P, |P|, cols) && j < cols
  {
    seq(|P|, i requires 0 <= i < |P| => P[i][j])
  }

  /** `x @ P`: entry j is the dot product of x with column j. */
  function Times(x: Vec, P: Matrix, cols: nat): (r: Vec)
    requires HasShape(P, |x|, cols)
    ensures |r| == cols
  {
    seq(cols, j requires 0 <= j < cols => Dot(x, Column(P, cols, j)))
  }

  /** `x @ P.T`: entry i is the dot product of x with row i. */
  function TimesTransposed(x: Vec, P: Matrix): (r: Vec)
    requires HasShape(P, |P|, |x|)
    ensures |r| == |P|
  {
    seq(|P|, i requires 0 <= i < |P| => Dot(x, P[i]))
  }

  /** `P @ P.T == I` and `P.T @ P == I`, which a QR factor satisfies. */
  ghost predicate Orthogonal(P: Matrix, d: nat) {
    && HasShape(P, d, d)
    && (forall i :: 0 <= i < d ==> TimesTransposed(P[i], P) == Unit(d, i))
    && (forall j :: 0 <= j < d ==> Times(Column(P, d, j), P, d) == Unit(d, j))
  }

  // ----- the dot product is a symmetric bilinear form

  lemma {:induction false} DotSymmetric(a: Vec, b: Vec)
    requires |a| == |b|
    ensures Dot(a, b) == Dot(b, a)
  {
    if a != [] {
      DotSymmetric(a[1..], b[1..]);
    }
  }

  lemma {:induction false} DotAdd(a: Vec, b: Vec, c: Vec)
    requires |a| == |b| == |c|
    ensures Dot(Add(a, b), c) == Dot(a, c) + Dot(b, c)
  {
    if a != [] {
      DotAdd(a[1..], b[1..], c[1..]);
      assert Add(a, b)[1..] == Add(a[1..], b[1..]);
    }
  }

  lemma {:induction false} DotScale(t: real, a: Vec, c: Vec)
    requires |a| == |c|
    ensures Dot(Scale(t, a), c) == t * Dot(a, c)
  {
    if a != [] {
      DotScale(t, a[1..], c[1..]);
      forall i | 0 <= i < |a[1..]| ensures Scale(t, a)[1..][i] == Scale(t, a[1..])[i] {}
      assert Scale(t, a)[1..] == Scale(t, a[1..]);
      assert t * (a[0] * c[0]) == (t * a[0]) * c[0];
    }
  }

  lemma {:induction false} DotSub(a: Vec, b: Vec, c: Vec)
    requires |a| == |b| == |c|
    ensures Dot(Sub(a, b), c) == Dot(a, c) - Dot(b, c)
    ensures Dot(c, Sub(a, b)) == Dot(c, a) - Dot(c, b)
  {
    assert a == Add(Sub(a, b), b);
    DotAdd(Sub(a, b), b, c);
    DotSymmetric(Sub(a, b), c);
    DotSymmetric(a, c);
    DotSymmetric(b, c);
  }

  lemma {:induction false} DotZero(a: Vec)
    ensures Dot(Zero(|a|), a) == 0.0 == Dot(a, Zero(|a|))
  {
    if a != [] {
      DotZero(a[1..]);
      assert Zero(|a|)[1..] == Zero(|a[1..]|);
    }
  }

  lemma {:induction false} DotUnit(a: Vec, k: nat)
    requires k < |a|
    ensures Dot(a, Unit(|a|, k)) == a[k]
  {
    if k == 0 {
      assert Unit(|a|, 0)[1..] == Zero(|a[1..]|);
      DotZero(a[1..]);
    } else {
      assert Unit(|a|, k)[1..] == Unit(|a[1..]|, k - 1);
      DotUnit(a[1..], k - 1);
    }
  }

  lemma {:induction false} DotSelfNonNegative(a: Vec)
    ensures Dot(a, a) >= 0.0
    ensures a != Zero(|a|) ==> Dot(a, a) > 0.0
  {
    if a != [] {
      DotSelfNonNegative(a[1..]);
      SquarePositive(a[0], a[0] * a[0]);
      if a[0] == 0.0 && a[1..] == Zero(|a[1..]|) {
        assert a == [a[0]] + a[1..] == Zero(|a|);
      }
    }
  }

  lemma {:induction false} SquarePositive(t: real, square: real)
    requires square == t * t
    ensures square >= 0.0
    ensures t != 0.0 ==> square > 0.0
  {
    if t > 0.0 {
      ProductPositive(t, t, square);
    } else if t < 0.0 {
      ProductPositive(-t, -t, square);
    }
  }

  lemma {:induction false} ProductPositive(x: real, y: real, product: real)
    requires x > 0.0 && y > 0.0 && product == x * y
    ensures product > 0.0
  {
    assert x * y > 0.0;
  }

  // ----- rotation: adjointness, inverses, preserved lengths

  lemma {:induction false} TimesHead(x: Vec, P: Matrix, cols: nat)
    requires x != [] && HasShape(P, |x|, cols)
    ensures HasShape(P[1..], |x[1..]|, cols)
    ensures Times(x, P, cols) == Add(Scale(x[0], P[0]), Times(x[1..], P[1..], cols))
  {
    forall j | 0 <= j < cols
      ensures Times(x, P, cols)[j] == x[0] * P[0][j] + Times(x[1..], P[1..], cols)[j]
    {
      assert Column(P, cols, j)[1..] == Column(P[1..], cols, j);
      assert Column(P, cols, j)[0] == P[0][j];
    }
    forall j | 0 <= j < cols ensures Scale(x[0], P[0])[j] == x[0] * P[0][j] {}
    assert Times(x, P, cols) == Add(Scale(x[0], P[0]), Times(x[1..], P[1..], cols));
  }

  /** `(x @ P) . y == x . (y @ P.T)`: the two rotations are adjoint. */
  lemma {:induction false} Adjoint(x: Vec, P: Matrix, y: Vec)
    requires HasShape(P, |x|, |y|)
    ensures Dot(Times(x, P, |y|), y) == Dot(x, TimesTransposed(y, P))
  {
    if x == [] {
      forall j | 0 <= j < |y| ensures Times(x, P, |y|)[j] == 0.0 {}
      assert Times(x, P, |y|) == Zero(|y|);
      DotZero(y);
    } else {
      hide Times, Column;
      TimesHead(x, P, |y|);
      Adjoint(x[1..], P[1..], y);
      DotAdd(Scale(x[0], P[0]), Times(x[1..], P[1..], |y|), y);
      DotScale(x[0], P[0], y);
      DotSymmetric(P[0], y);
      assert TimesTransposed(y, P)[1..] == TimesTransposed(y, P[1..]);
    }
  }

  lemma {:induction false} RotateBackAndForth(x: Vec, P: Matrix)
    requires Orthogonal(P, |x|)
    ensures TimesTransposed(Times(x, P, |x|), P) == x
    ensures Times(TimesTransposed(x, P), P, |x|) == x
  {
    var d := |x|;
    forall i | 0 <= i < d ensures TimesTransposed(Times(x, P, d), P)[i] == x[i] {
      Adjoint(x, P, P[i]);
      DotUnit(x, i);
    }
    forall j | 0 <= j < d ensures Times(TimesTransposed(x, P), P, d)[j] == x[j] {
      var col := Column(P, d, j);
      DotSymmetric(TimesTransposed(x, P), col);
      Adjoint(col, P, x);
      DotSymmetric(Unit(d, j), x);
      DotUnit(x, j);
    }
  }

  lemma {:induction false} RotationKeepsDot(x: Vec, y: Vec, P: Matrix)
    requires |x| == |y| && Orthogonal(P, |x|)
    ensures Dot(Times(x, P, |x|), Times(y, P, |x|)) == Dot(x, y)
    ensures Dot(TimesTransposed(x, P), TimesTransposed(y, P)) == Dot(x, y)
  {
    RotateBackAndForth(x, P);
    RotateBackAndForth(y, P);
    Adjoint(x, P, Times(y, P, |x|));
    Adjoint(TimesTransposed(x, P), P, y);
  }

  // ----- Cauchy-Schwarz

  lemma {:induction false} CauchySchwarz(a: Vec, b: Vec)
    requires |a| == |b|
    ensures Dot(a, b) * Dot(a, b) <= Dot(a, a) * Dot(b, b)
  {
    hide Dot, CombinedSquare;
    var aa, ab, bb := Dot(a, a), Dot(a, b), Dot(b, b);
    DotSelfNonNegative(b);
    if b == Zero(|b|) {
      DotZero(a);
      DotZero(b);
    } else {
      var w := Sub(Scale(bb, a), Scale(ab, b));
      DotSelfNonNegative(w);
      DotCombination(bb, a, ab, b);
      CauchySchwarzScalars(aa, ab, bb, Dot(w, w));
    }
  }

  lemma {:induction false} CauchySchwarzScalars(aa: real, ab: real, bb: real, w: real)
    requires bb > 0.0 && w >= 0.0
    requires w == CombinedSquare(bb, ab, aa, ab, bb)
    ensures ab * ab <= aa * bb
  {
    var gap := bb * aa - ab * ab;
    assert bb * ab == ab * bb;
    assert w == bb * gap;
  }

  function CombinedSquare(s: real, t: real, aa: real, ab: real, bb: real): real {
    s * (s * aa - t * ab) - t * (s * ab - t * bb)
  }

  /** The square of a linear combination, expanded. */
  lemma {:induction false} DotCombination(s: real, a: Vec, t: real, b: Vec)
    requires |a| == |b|
    ensures var w := Sub(Scale(s, a), Scale(t, b));
            Dot(w, w) == CombinedSquare(s, t, Dot(a, a), Dot(a, b), Dot(b, b))
  {
    hide *;
    var w := Sub(Scale(s, a), Scale(t, b));
    DotCombinationWith(s, a, t, b, w);
    DotCombinationWith(s, a, t, b, a);
    DotCombinationWith(s, a, t, b, b);
    DotSymmetric(a, w);
    DotSymmetric(b, w);
    DotSymmetric(a, b);
    SubstituteInCombination(s, t, Dot(w, w), Dot(w, a), Dot(w, b), Dot(a, a), Dot(a, b), Dot(b, b));
  }

  lemma {:induction false} SubstituteInCombination(s: real, t: real, ww: real, wa: real, wb: real, aa: real, ab: real,
                                                   bb: real)
    requires ww == s * wa - t * wb && wa == s * aa - t * ab && wb == s * ab - t * bb
    ensures ww == CombinedSquare(s, t, aa, ab, bb)
  {
  }

  lemma {:induction false} DotCombinationWith(s: real, a: Vec, t: real, b: Vec, c: Vec)
    requires |a| == |b| == |c|
    ensures Dot(Sub(Scale(s, a), Scale(t, b)), c) == s * Dot(a, c) - t * Dot(b, c)
  {
    DotSub(Scale(s, a), Scale(t, b), c);
    DotScale(s, a, c);
    DotScale(t, b, c);
  }
}
