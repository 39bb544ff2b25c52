/**
 The one-bit key quantiser and the inner-product estimate built from it, for one attention head.
 All arithmetic is over the exact reals.
 */
module RabitqEstimator {
  import opened LinearAlgebra

  /** The square root the tensors use and the constant that guards the two divisions. */
  datatype Numerics = Numerics(sqrt: real -> real, eps: real)

  ghost predicate ValidNumerics(num: Numerics) {
    && num.eps >= 0.0
    && forall x: real :: x >= 0.0 ==> num.sqrt(x) >= 0.0 && num.sqrt(x) * num.sqrt(x) == x
  }

  /** What training fixes for a head: the rotation, both centroids and their dot product. */
  datatype Head = Head(d: nat, rotation: Matrix, qCentroid: Vec, kCentroid: Vec, cqDotCk: real)

  ghost predicate ValidHead(h: Head) {
    && h.d > 0
    && Orthogonal(h.rotation, h.d)
    && |h.qCentroid| == |h.kCentroid| == h.d
    && h.cqDotCk == Dot(h.qCentroid, h.kCentroid)
  }

  /** What the index stores for one key. */
  datatype KeyCode = KeyCode(code: seq<bool>, norm: real, oObar: real, cqDotKr: real)

  function SignCode(z: Vec): (code: seq<bool>)
    ensures |code| == |z|
  {
    seq(|z|, i requires 0 <= i < |z| => z[i] > 0.0)
  }

  /** `(2 * code - 1) / sqrt(d)` */
  function Dequantize(code: seq<bool>, sqrtD: real): (r: Vec)
    requires sqrtD != 0.0
    ensures |r| == |code|
  {
    seq(|code|, i requires 0 <= i < |code| => (2.0 * (if code[i] then 1.0 else 0.0) - 1.0) / sqrtD)
  }

  function SqrtD(num: Numerics, h: Head): real {
    num.sqrt(h.d as real)
  }

  lemma {:induction false} SqrtDPositive(num: Numerics, h: Head)
    requires ValidNumerics(num) && ValidHead(h)
    ensures SqrtD(num, h) > 0.0 && SqrtD(num, h) * SqrtD(num, h) == h.d as real
  {
  }

  function Residual(h: Head, k: Vec): (r: Vec)
    requires |k| == |h.kCentroid|
    ensures |r| == |k|
  {
    Sub(k, h.kCentroid)
  }

  /** The rotated one-bit reconstruction of a key direction. */
  function Reconstruct(num: Numerics, h: Head, code: seq<bool>): (r: Vec)
    requires ValidNumerics(num) && ValidHead(h) && |code| == h.d
    ensures |r| == h.d
  {
    SqrtDPositive(num, h);
    Times(Dequantize(code, SqrtD(num, h)), h.rotation, h.d)
  }

  /** A key equal to its centroid has no direction; only a positive `eps` lets it through. */
  ghost predicate Quantizable(num: Numerics, h: Head, k: Vec) {
    && ValidNumerics(num) && ValidHead(h) && |k| == h.d
    && (num.eps > 0.0 || k != h.kCentroid)
  }

  lemma {:induction false} RootOf(num: Numerics, x: real)
    requires ValidNumerics(num) && x >= 0.0
    ensures num.eps >= 0.0 && num.sqrt(x) >= 0.0 && num.sqrt(x) * num.sqrt(x) == x
  {
  }

  lemma {:induction false} NormOfResidual(num: Numerics, h: Head, k: Vec)
    requires Quantizable(num, h, k)
    ensures var n := num.sqrt(Dot(Residual(h, k), Residual(h, k)));
            n >= 0.0 && n * n == Dot(Residual(h, k), Residual(h, k)) && n + num.eps > 0.0
            && (n == 0.0 <==> k == h.kCentroid)
  {
    hide Dot, ValidNumerics, Orthogonal;
    var r := Residual(h, k);
    var n := num.sqrt(Dot(r, r));
    DotSelfNonNegative(r);
    RootOf(num, Dot(r, r));
    SquarePositive(n, n * n);
    if k == h.kCentroid {
      assert r == Zero(|k|);
      DotZero(r);
    } else {
      var i :| 0 <= i < |k| && k[i] != h.kCentroid[i];
      assert r[i] != 0.0;
    }
  }

  function QuantizeKey(num: Numerics, h: Head, k: Vec): (kc: KeyCode)
    requires Quantizable(num, h, k)
    ensures |kc.code| == h.d
  {
    var residual := Residual(h, k);
    var norm := num.sqrt(Dot(residual, residual));
    NormOfResidual(num, h, k);
    var unit := Scale(1.0 / (norm + num.eps), residual);
    var code := SignCode(TimesTransposed(residual, h.rotation));
    KeyCode(code, norm, Dot(unit, Reconstruct(num, h, code)), Dot(k, h.qCentroid))
  }

  /** The estimate of `q . k`, computed from the stored code of k alone. */
  function Estimate(num: Numerics, h: Head, kc: KeyCode, q: Vec): real
    requires ValidNumerics(num) && ValidHead(h) && |q| == |kc.code| == h.d
    requires kc.oObar + num.eps != 0.0
  {
    SqrtDPositive(num, h);
    var rotated := TimesTransposed(Sub(q, h.qCentroid), h.rotation);
    var unitEstimate := Dot(rotated, Dequantize(kc.code, SqrtD(num, h))) / (kc.oObar + num.eps);
    kc.norm * unitEstimate + Dot(q, h.kCentroid) + kc.cqDotKr - h.cqDotCk
  }

  // ----- signs: the code against the rotated residual

  function L1(z: Vec): real {
    if z == [] then 0.0 else (if z[0] > 0.0 then z[0] else -z[0]) + L1(z[1..])
  }

  lemma {:induction false} DequantizeHead(code: seq<bool>, s: real)
    requires s > 0.0 && code != []
    ensures s * Dequantize(code, s)[0] == if code[0] then 1.0 else -1.0
    ensures Dequantize(code, s)[1..] == Dequantize(code[1..], s)
  {
  }

  lemma {:induction false} SignsGiveL1(z: Vec, s: real)
    requires s > 0.0
    ensures s * Dot(z, Dequantize(SignCode(z), s)) == L1(z)
  {
    hide Dequantize;
    if z != [] {
      SignsGiveL1(z[1..], s);
      DequantizeHead(SignCode(z), s);
      assert SignCode(z)[1..] == SignCode(z[1..]);
      var b := Dequantize(SignCode(z), s);
      SignStep(z[0], b[0], s, Dot(z[1..], b[1..]), L1(z[1..]));
    }
  }

  lemma {:induction false} SignStep(z: real, b: real, s: real, tail: real, rest: real)
    requires s * b == (if z > 0.0 then 1.0 else -1.0) && s * tail == rest
    ensures s * (z * b + tail) == (if z > 0.0 then z else -z) + rest
  {
    assert s * (z * b + tail) == z * (s * b) + s * tail;
  }

  lemma {:induction false} CodeLength(code: seq<bool>, s: real)
    requires s > 0.0
    ensures s * s * Dot(Dequantize(code, s), Dequantize(code, s)) == |code| as real
  {
    hide Dequantize;
    if code != [] {
      CodeLength(code[1..], s);
      DequantizeHead(code, s);
      var b := Dequantize(code, s);
      CodeStep(b[0], s, Dot(b[1..], b[1..]), |code[1..]| as real);
    }
  }

  lemma {:induction false} CodeStep(b: real, s: real, tail: real, rest: real)
    requires (s * b == 1.0 || s * b == -1.0) && s * s * tail == rest
    ensures s * s * (b * b + tail) == 1.0 + rest
  {
    assert s * s * (b * b + tail) == (s * b) * (s * b) + s * s * tail;
  }

  lemma {:induction false} L1DominatesL2(z: Vec)
    ensures L1(z) >= 0.0
    ensures Dot(z, z) <= L1(z) * L1(z)
  {
    if z != [] {
      L1DominatesL2(z[1..]);
      var head := if z[0] > 0.0 then z[0] else -z[0];
      SquareOfSum(head, L1(z[1..]), z[0], Dot(z[1..], z[1..]));
    }
  }

  lemma {:induction false} SquareOfSum(x: real, y: real, z: real, rest: real)
    requires x >= 0.0 && y >= 0.0 && (x == z || x == -z) && rest <= y * y
    ensures z * z + rest <= (x + y) * (x + y)
  {
    assert z * z == x * x;
    assert x * y >= 0.0;
    assert (x + y) * (x + y) == x * x + 2.0 * (x * y) + y * y;
  }

  lemma {:induction false} RootOrder(x: real, y: real)
    requires x >= 0.0 && y >= 0.0 && x * x <= y * y
    ensures x <= y
  {
    if x > y {
      assert (x - y) * (x + y) == x * x - y * y;
      ProductPositive(x - y, x + y, (x - y) * (x + y));
    }
  }

  // ----- geometry of one stored key

  /** The overlap of residual and reconstruction, undone from the stored, normalised one. */
  function Overlap(num: Numerics, kc: KeyCode): real {
    kc.oObar * (kc.norm + num.eps)
  }

  /** The key's residual seen through its own one-bit reconstruction. */
  lemma {:induction false} KeyGeometry(num: Numerics, h: Head, k: Vec)
    requires Quantizable(num, h, k)
    ensures var kc := QuantizeKey(num, h, k);
            var r, bar := Residual(h, k), Reconstruct(num, h, kc.code);
            && Dot(r, r) == kc.norm * kc.norm
            && Dot(bar, bar) == 1.0
            && Dot(r, bar) == Overlap(num, kc)
            && SqrtD(num, h) * Dot(r, bar) == L1(TimesTransposed(r, h.rotation))
            && Dot(r, bar) <= kc.norm <= SqrtD(num, h) * Dot(r, bar)
  {
    hide Dot, Scale, Dequantize, Times, TimesTransposed, L1, ValidNumerics;
    var kc := QuantizeKey(num, h, k);
    var s, r := SqrtD(num, h), Residual(h, k);
    SqrtDPositive(num, h);
    NormOfResidual(num, h, k);
    ReconstructionIsUnit(num, h, kc.code);
    StoredDotIsL1(num, h, k);
    var bar := Reconstruct(num, h, kc.code);
    var z := TimesTransposed(r, h.rotation);
    DotScale(1.0 / (kc.norm + num.eps), r, bar);
    UndoDivision(kc.oObar, kc.norm + num.eps, Dot(r, bar));
    CauchySchwarz(r, bar);
    L1DominatesL2(z);
    RotationKeepsDot(r, r, h.rotation);
    NonNegativeFactor(s, Dot(r, bar), L1(z));
    RootOrder(Dot(r, bar), kc.norm);
    RootOrder(kc.norm, L1(z));
  }

  lemma {:induction false} ReconstructionIsUnit(num: Numerics, h: Head, code: seq<bool>)
    requires ValidNumerics(num) && ValidHead(h) && |code| == h.d
    ensures Dot(Reconstruct(num, h, code), Reconstruct(num, h, code)) == 1.0
  {
    hide Dot, Dequantize, Times;
    SqrtDPositive(num, h);
    var s := SqrtD(num, h);
    var b := Dequantize(code, s);
    RotationKeepsDot(b, b, h.rotation);
    CodeLength(code, s);
    OneFromScaled(s, h.d as real, Dot(b, b));
  }

  lemma {:induction false} OneFromScaled(s: real, d: real, x: real)
    requires d > 0.0 && s * s == d && s * s * x == d
    ensures x == 1.0
  {
    var gap := x - 1.0;
    assert s * s * gap == 0.0;
    assert d * gap == 0.0;
  }

  lemma {:induction false} StoredDotIsL1(num: Numerics, h: Head, k: Vec)
    requires Quantizable(num, h, k)
    ensures var r := Residual(h, k);
            SqrtD(num, h) * Dot(r, Reconstruct(num, h, QuantizeKey(num, h, k).code))
            == L1(TimesTransposed(r, h.rotation))
  {
    hide Dot, Dequantize, L1;
    SqrtDPositive(num, h);
    var s, r := SqrtD(num, h), Residual(h, k);
    var z := TimesTransposed(r, h.rotation);
    var b := Dequantize(SignCode(z), s);
    SignsGiveL1(z, s);
    Adjoint(b, h.rotation, r);
    DotSymmetric(b, z);
    DotSymmetric(r, Times(b, h.rotation, h.d));
  }

  lemma {:induction false} UndoDivision(o: real, t: real, m: real)
    requires t > 0.0 && o == 1.0 / t * m
    ensures m == o * t
  {
    assert 1.0 / t * t == 1.0;
    assert o * t == m * (1.0 / t * t);
  }

  lemma {:induction false} NonNegativeFactor(s: real, x: real, product: real)
    requires s > 0.0 && product >= 0.0 && s * x == product
    ensures x >= 0.0
  {
    if x < 0.0 {
      ProductPositive(s, -x, -product);
    }
  }
}
