/** What the one-bit estimate of `q . k` guarantees, for every rotation, centroid pair, query and key. */
module RabitqBounds {
  import opened LinearAlgebra
  import opened RabitqEstimator

  function Square(x: real): real {
    x * x
  }

  ghost predicate QueryAndKey(num: Numerics, h: Head, k: Vec, q: Vec) {
    Quantizable(num, h, k) && |q| == h.d
  }

  /** The factor by which the estimate stretches the reconstructed direction. */
  function Gain(num: Numerics, kc: KeyCode): real
    requires kc.oObar + num.eps != 0.0
  {
    kc.norm / (kc.oObar + num.eps)
  }

  // ----- the stored <o, obar>

  /** The debiasing divisor never vanishes, and the stored `<o, obar>` is pinned between two bounds. */
  lemma {:induction false} StoredDotBounds(num: Numerics, h: Head, k: Vec)
    requires Quantizable(num, h, k)
    ensures var kc, s := QuantizeKey(num, h, k), SqrtD(num, h);
            && kc.oObar + num.eps > 0.0
            && kc.oObar >= 0.0
            && (kc.oObar == 0.0 <==> k == h.kCentroid)
            && Overlap(num, kc) <= kc.norm <= s * Overlap(num, kc)
  {
    hide Dot, Scale, Dequantize, Times, TimesTransposed, L1;
    KeyGeometry(num, h, k);
    NormOfResidual(num, h, k);
    SqrtDPositive(num, h);
    var kc := QuantizeKey(num, h, k);
    var m := Dot(Residual(h, k), Reconstruct(num, h, kc.code));
    DivisorScalars(SqrtD(num, h), num.eps, kc.norm, kc.oObar, m);
  }

  lemma {:induction false} DivisorScalars(s: real, eps: real, n: real, o: real, m: real)
    requires s > 0.0 && eps >= 0.0 && n >= 0.0 && n + eps > 0.0
    requires m == o * (n + eps) && m <= n <= s * m
    ensures o >= 0.0 && o + eps > 0.0 && (o == 0.0 <==> n == 0.0)
  {
    NonNegativeFactor(s, m, s * m);
    if o < 0.0 {
      ProductPositive(-o, n + eps, -m);
    } else if o > 0.0 {
      ProductPositive(o, n + eps, m);
    }
  }

  /** At `eps == 0` the stored value is `|z|_1 / (sqrt(d) * |k - c_k|)`, z the rotated residual, and lies in
      `[1 / sqrt(d), 1]`. */
  lemma {:induction false} CleanStoredDot(num: Numerics, h: Head, k: Vec)
    requires Quantizable(num, h, k) && num.eps == 0.0
    ensures var kc, s := QuantizeKey(num, h, k), SqrtD(num, h);
            && s > 0.0 && kc.norm > 0.0
            && kc.oObar == L1(TimesTransposed(Residual(h, k), h.rotation)) / (s * kc.norm)
            && 1.0 / s <= kc.oObar <= 1.0
  {
    hide ValidNumerics, Orthogonal, Dot, Scale, Dequantize, Times, TimesTransposed, L1;
    KeyGeometry(num, h, k);
    NormOfResidual(num, h, k);
    SqrtDPositive(num, h);
    var kc := QuantizeKey(num, h, k);
    var m := Dot(Residual(h, k), Reconstruct(num, h, kc.code));
    CleanDivisorScalars(SqrtD(num, h), kc.norm, kc.oObar, m, SqrtD(num, h) * m);
  }

  lemma {:induction false} CleanDivisorScalars(s: real, n: real, o: real, m: real, l1: real)
    requires s > 0.0 && n > 0.0 && m == o * n && m <= n <= l1 && l1 == s * m
    ensures s * n > 0.0 && o == l1 / (s * n)
    ensures 1.0 / s <= o <= 1.0
  {
    ProductPositive(s, n, s * n);
    assert l1 == o * (s * n);
    if o > 1.0 {
      ProductPositive(n, o - 1.0, m - n);
    }
    assert s * o >= 1.0 by {
      if s * o < 1.0 {
        ProductPositive(n, 1.0 - s * o, n - l1);
      }
    }
  }

  // ----- the centred decomposition

  /** `Estimate - q . k` is one dot product of the query residual: the centroid terms cancel exactly. */
  lemma {:induction false} ErrorIsResidualDot(num: Numerics, h: Head, k: Vec, q: Vec)
    requires QueryAndKey(num, h, k, q)
    ensures var kc := QuantizeKey(num, h, k);
            && kc.oObar + num.eps > 0.0
            && Estimate(num, h, kc, q) - Dot(q, k)
               == Dot(Sub(q, h.qCentroid), Sub(Scale(Gain(num, kc), Reconstruct(num, h, kc.code)), Residual(h, k)))
  {
    hide Dot, Scale, Dequantize, Times, TimesTransposed;
    StoredDotBounds(num, h, k);
    SqrtDPositive(num, h);
    var kc := QuantizeKey(num, h, k);
    var g := Gain(num, kc);
    var qr, r := Sub(q, h.qCentroid), Residual(h, k);
    var b := Dequantize(kc.code, SqrtD(num, h));
    var bar := Reconstruct(num, h, kc.code);
    Adjoint(b, h.rotation, qr);
    DotSymmetric(b, TimesTransposed(qr, h.rotation));
    DotSymmetric(bar, qr);
    assert Dot(TimesTransposed(qr, h.rotation), b) == Dot(qr, bar);
    DotSub(Scale(g, bar), r, qr);
    DotScale(g, bar, qr);
    DotSymmetric(Scale(g, bar), qr);
    CentredProduct(h, k, q);
    Regroup(kc.norm, kc.oObar + num.eps, Dot(qr, bar));
  }

  lemma {:induction false} Regroup(n: real, t: real, x: real)
    requires t > 0.0
    ensures n * (x / t) == n / t * x
  {
  }

  lemma {:induction false} CentredProduct(h: Head, k: Vec, q: Vec)
    requires ValidHead(h) && |q| == |k| == h.d
    ensures Dot(Sub(q, h.qCentroid), Residual(h, k))
            == Dot(q, k) - Dot(q, h.kCentroid) - Dot(k, h.qCentroid) + h.cqDotCk
  {
    hide Dot;
    DotSub(q, h.qCentroid, Residual(h, k));
    DotSub(k, h.kCentroid, q);
    DotSub(k, h.kCentroid, h.qCentroid);
    DotSymmetric(k, h.qCentroid);
  }

  // ----- the error bound

  function Spread(gain: real, overlap: real, norm: real): real {
    gain * gain - 2.0 * (gain * overlap) + norm * norm
  }

  /** The squared length of the error direction, from the stored numbers alone. */
  function ErrorSpread(num: Numerics, kc: KeyCode): real
    requires kc.oObar + num.eps != 0.0
  {
    Spread(Gain(num, kc), Overlap(num, kc), kc.norm)
  }

  lemma {:induction false} SpreadIsSquaredLength(num: Numerics, h: Head, k: Vec)
    requires Quantizable(num, h, k)
    ensures var kc := QuantizeKey(num, h, k);
            && kc.oObar + num.eps > 0.0
            && var w := Sub(Scale(Gain(num, kc), Reconstruct(num, h, kc.code)), Residual(h, k));
               Dot(w, w) == ErrorSpread(num, kc)
  {
    hide Dot, Dequantize, Times, TimesTransposed, L1, QuantizeKey, Overlap, CombinedSquare, Spread, Gain;
    StoredDotBounds(num, h, k);
    KeyGeometry(num, h, k);
    var kc := QuantizeKey(num, h, k);
    var r, bar, g := Residual(h, k), Reconstruct(num, h, kc.code), Gain(num, kc);
    ScaleByOne(r);
    DotCombination(g, bar, 1.0, r);
    DotSymmetric(r, bar);
    SpreadScalars(g, Dot(r, bar), kc.norm, Dot(r, r));
  }

  lemma {:induction false} ScaleByOne(a: Vec)
    ensures Scale(1.0, a) == a
  {
  }

  lemma {:induction false} SpreadScalars(g: real, m: real, n: real, rr: real)
    requires rr == n * n
    ensures CombinedSquare(g, 1.0, 1.0, m, rr) == Spread(g, m, n)
  {
  }

  /** The deterministic error bound, for every `eps`. */
  lemma {:induction false} ErrorBound(num: Numerics, h: Head, k: Vec, q: Vec)
    requires QueryAndKey(num, h, k, q)
    ensures var kc, qr := QuantizeKey(num, h, k), Sub(q, h.qCentroid);
            && kc.oObar + num.eps > 0.0
            && Square(Estimate(num, h, kc, q) - Dot(q, k)) <= Dot(qr, qr) * ErrorSpread(num, kc)
  {
    hide ValidNumerics, Orthogonal, Dot, Dequantize, Times, TimesTransposed, L1, QuantizeKey, Scale;
    ErrorIsResidualDot(num, h, k, q);
    SpreadIsSquaredLength(num, h, k);
    var kc := QuantizeKey(num, h, k);
    CauchySchwarz(Sub(q, h.qCentroid), Sub(Scale(Gain(num, kc), Reconstruct(num, h, kc.code)), Residual(h, k)));
  }

  /** No smaller bound in the query's length is possible: some query meets it, with a residual that is not zero
      unless every estimate for this key is exact. */
  lemma {:induction false} ErrorBoundIsAttained(num: Numerics, h: Head, k: Vec) returns (q: Vec)
    requires Quantizable(num, h, k)
    ensures |q| == h.d
    ensures var kc, qr := QuantizeKey(num, h, k), Sub(q, h.qCentroid);
            && kc.oObar + num.eps > 0.0
            && Dot(qr, qr) == ErrorSpread(num, kc)
            && Square(Estimate(num, h, kc, q) - Dot(q, k)) == Dot(qr, qr) * ErrorSpread(num, kc)
  {
    hide ValidNumerics, Orthogonal, Dot, Dequantize, Times, TimesTransposed, L1, QuantizeKey, Scale;
    SpreadIsSquaredLength(num, h, k);
    var kc := QuantizeKey(num, h, k);
    var w := Sub(Scale(Gain(num, kc), Reconstruct(num, h, kc.code)), Residual(h, k));
    q := Add(w, h.qCentroid);
    assert Sub(q, h.qCentroid) == w;
    ErrorIsResidualDot(num, h, k, q);
  }

  function InverseSquare(x: real): real
    requires x > 0.0
  {
    1.0 / x / x
  }

  /** `|k - c_k|^2 * |q - c_q|^2 * (1 / o^2 - 1)`, from the two squared lengths. */
  function CleanBound(kk: real, qq: real, o: real): real
    requires o > 0.0
  {
    kk * qq * (InverseSquare(o) - 1.0)
  }

  /** At `eps == 0` the bound is `|k - c_k|^2 * |q - c_q|^2 * (1 / o^2 - 1)`, and never more than `d - 1` times
      the product of the two squared lengths. */
  lemma {:induction false} CleanErrorBound(num: Numerics, h: Head, k: Vec, q: Vec)
    requires QueryAndKey(num, h, k, q) && num.eps == 0.0
    ensures var kc, r, qr := QuantizeKey(num, h, k), Residual(h, k), Sub(q, h.qCentroid);
            && kc.oObar > 0.0
            && var err := Square(Estimate(num, h, kc, q) - Dot(q, k));
               err <= CleanBound(Dot(r, r), Dot(qr, qr), kc.oObar)
               && err <= Dot(r, r) * Dot(qr, qr) * (h.d as real - 1.0)
  {
    hide Dot, Dequantize, Times, TimesTransposed, L1, QuantizeKey, Scale, ErrorSpread, InverseSquare, Estimate, Square,
         CleanBound, ValidNumerics, Orthogonal;
    ErrorBound(num, h, k, q);
    CleanSpread(num, h, k);
    var kc, r, qr := QuantizeKey(num, h, k), Residual(h, k), Sub(q, h.qCentroid);
    DotSelfNonNegative(r);
    DotSelfNonNegative(qr);
    var err := Square(Estimate(num, h, kc, q) - Dot(q, k));
    CleanBoundScalars(err, Dot(qr, qr), ErrorSpread(num, kc), Dot(r, r), kc.oObar, h.d as real);
  }

  lemma {:induction false} CleanBoundScalars(err: real, qq: real, spread: real, kk: real, o: real, d: real)
    requires err <= qq * spread && qq >= 0.0 && kk >= 0.0 && o > 0.0
    requires spread == kk * (InverseSquare(o) - 1.0) && InverseSquare(o) <= d
    ensures err <= CleanBound(kk, qq, o) && err <= kk * qq * (d - 1.0)
  {
    hide InverseSquare;
    WeightedBound(qq, spread, kk, InverseSquare(o) - 1.0, d - 1.0);
  }

  lemma {:induction false} CleanSpread(num: Numerics, h: Head, k: Vec)
    requires Quantizable(num, h, k) && num.eps == 0.0
    ensures var kc, r := QuantizeKey(num, h, k), Residual(h, k);
            && kc.oObar > 0.0
            && ErrorSpread(num, kc) == Dot(r, r) * (InverseSquare(kc.oObar) - 1.0)
            && InverseSquare(kc.oObar) <= h.d as real
  {
    hide Dot, Dequantize, Times, TimesTransposed, L1, Scale, ErrorSpread, InverseSquare, Residual;
    CleanStoredDot(num, h, k);
    NormOfResidual(num, h, k);
    SqrtDPositive(num, h);
    CleanScalars(num, QuantizeKey(num, h, k), SqrtD(num, h), h.d as real, Dot(Residual(h, k), Residual(h, k)));
  }

  lemma {:induction false} CleanScalars(num: Numerics, kc: KeyCode, s: real, d: real, rr: real)
    requires num.eps == 0.0 && s > 0.0 && 1.0 / s <= kc.oObar && s * s == d
    requires rr == kc.norm * kc.norm
    ensures kc.oObar > 0.0
    ensures ErrorSpread(num, kc) == rr * (InverseSquare(kc.oObar) - 1.0)
    ensures InverseSquare(kc.oObar) <= d
  {
    assert 1.0 / s > 0.0;
    var n, o, inv := kc.norm, kc.oObar, 1.0 / kc.oObar;
    assert inv * o == 1.0;
    assert Gain(num, kc) == n * inv;
    assert Gain(num, kc) * Overlap(num, kc) == n * n * (inv * o);
    assert InverseSquare(o) == inv * inv;
    InverseBound(s, o, inv, d);
  }

  lemma {:induction false} InverseBound(s: real, o: real, inv: real, d: real)
    requires s > 0.0 && o > 0.0 && 1.0 / s <= o && inv * o == 1.0 && inv > 0.0 && s * s == d
    ensures inv * inv <= d
  {
    assert 1.0 <= s * o;
    assert inv <= s * (o * inv);
    assert inv * inv <= s * inv <= s * s;
  }

  lemma {:induction false} WeightedBound(w: real, spread: real, nn: real, x: real, y: real)
    requires w >= 0.0 && nn >= 0.0 && spread == nn * x && x <= y
    ensures w * spread == nn * w * x && nn * w * x <= nn * w * y
  {
    assert nn * w >= 0.0;
    assert nn * w * (y - x) >= 0.0;
  }

  // ----- where the estimate is exact, and what eps > 0 does to it

  /** For a query residual that is `t` times the key residual, the error is a multiple of `eps`, and it is zero
      exactly when one of its factors is. */
  lemma {:induction false} ParallelQuery(num: Numerics, h: Head, k: Vec, q: Vec, t: real)
    requires QueryAndKey(num, h, k, q) && Sub(q, h.qCentroid) == Scale(t, Residual(h, k))
    ensures var kc := QuantizeKey(num, h, k);
            && kc.oObar + num.eps > 0.0
            && var err := Estimate(num, h, kc, q) - Dot(q, k);
               err == t * (Gain(num, kc) * (num.eps * (kc.oObar - kc.norm)))
               && (err == 0.0 <==> t == 0.0 || k == h.kCentroid || num.eps == 0.0 || kc.oObar == kc.norm)
  {
    hide Dot, Dequantize, Times, TimesTransposed, L1, QuantizeKey, Scale, Estimate, Overlap, Gain;
    ErrorIsResidualDot(num, h, k, q);
    var kc, r := QuantizeKey(num, h, k), Residual(h, k);
    var bar := Reconstruct(num, h, kc.code);
    assert Dot(r, bar) == Overlap(num, kc) && Dot(r, r) == kc.norm * kc.norm by { KeyGeometry(num, h, k); }
    assert kc.norm >= 0.0 && (kc.norm == 0.0 <==> k == h.kCentroid) by {
      NormOfResidual(num, h, k);
      StoredNorm(num, h, k);
    }
    DotAlongResidual(r, bar, Gain(num, kc), t);
    ParallelScalars(num, kc, t, Dot(r, r), Estimate(num, h, kc, q) - Dot(q, k));
  }

  lemma {:induction false} DotAlongResidual(r: Vec, bar: Vec, g: real, t: real)
    requires |r| == |bar|
    ensures Dot(Scale(t, r), Sub(Scale(g, bar), r)) == t * (g * Dot(r, bar) - Dot(r, r))
  {
    hide Dot, Scale;
    DotScale(t, r, Sub(Scale(g, bar), r));
    DotSub(Scale(g, bar), r, r);
    DotScale(g, bar, r);
    DotSymmetric(bar, r);
    DotSymmetric(Scale(g, bar), r);
  }

  lemma {:induction false} StoredNorm(num: Numerics, h: Head, k: Vec)
    requires Quantizable(num, h, k)
    ensures QuantizeKey(num, h, k).norm == num.sqrt(Dot(Residual(h, k), Residual(h, k)))
    ensures QuantizeKey(num, h, k).code == SignCode(TimesTransposed(Residual(h, k), h.rotation))
    ensures QuantizeKey(num, h, k).cqDotKr == Dot(k, h.qCentroid)
  {
    hide Dot, Scale, Times, TimesTransposed;
  }

  lemma {:induction false} ParallelScalars(num: Numerics, kc: KeyCode, t: real, rr: real, err: real)
    requires kc.oObar + num.eps > 0.0 && kc.norm >= 0.0 && rr == kc.norm * kc.norm
    requires err == t * (Gain(num, kc) * Overlap(num, kc) - rr)
    ensures err == t * (Gain(num, kc) * (num.eps * (kc.oObar - kc.norm)))
    ensures err == 0.0 <==> t == 0.0 || kc.norm == 0.0 || num.eps == 0.0 || kc.oObar == kc.norm
  {
    var n, o, eps, g := kc.norm, kc.oObar, num.eps, Gain(num, kc);
    assert g * (o + eps) == n;
    assert n * n == g * (n * (o + eps));
    assert g * (o * (n + eps)) - g * (n * (o + eps)) == g * (eps * (o - n));
    ZeroProduct(eps, o - n);
    ZeroProduct(g, eps * (o - n));
    ZeroProduct(t, g * (eps * (o - n)));
    assert g == 0.0 <==> n == 0.0;
  }

  lemma {:induction false} ZeroProduct(x: real, y: real)
    ensures x * y == 0.0 <==> x == 0.0 || y == 0.0
  {
    if x > 0.0 && y > 0.0 {
      ProductPositive(x, y, x * y);
    } else if x > 0.0 && y < 0.0 {
      ProductPositive(x, -y, -(x * y));
    } else if x < 0.0 && y > 0.0 {
      ProductPositive(-x, y, -(x * y));
    } else if x < 0.0 && y < 0.0 {
      ProductPositive(-x, -y, x * y);
    }
  }

  /** A key equal to its centroid is estimated exactly for every query, once `eps` is positive. */
  lemma {:induction false} CentroidKeyIsExact(num: Numerics, h: Head, q: Vec)
    requires ValidNumerics(num) && ValidHead(h) && num.eps > 0.0 && |q| == h.d
    ensures var kc := QuantizeKey(num, h, h.kCentroid);
            kc.oObar + num.eps > 0.0 && Estimate(num, h, kc, q) == Dot(q, h.kCentroid)
  {
    hide Dot, Dequantize, Times, TimesTransposed, L1, QuantizeKey, Estimate;
    var k := h.kCentroid;
    ErrorIsResidualDot(num, h, k, q);
    NormOfResidual(num, h, k);
    StoredNorm(num, h, k);
    var kc := QuantizeKey(num, h, k);
    assert kc.norm == 0.0;
    var bar := Reconstruct(num, h, kc.code);
    NothingLeft(bar, Residual(h, k), Gain(num, kc));
    DotZero(Sub(q, h.qCentroid));
  }

  /** Such a key has no direction: its code is all zeros. More generally a code bit is set only where the rotated
      residual is positive, so a key and its mirror image in the centroid share no set bit. */
  lemma {:induction false} MirroredCodes(num: Numerics, h: Head, k: Vec, mirrored: Vec, i: nat)
    requires Quantizable(num, h, k) && Quantizable(num, h, mirrored) && i < h.d
    requires Residual(h, mirrored) == Scale(-1.0, Residual(h, k))
    ensures var (z, a, b) := (TimesTransposed(Residual(h, k), h.rotation), QuantizeKey(num, h, k).code,
                              QuantizeKey(num, h, mirrored).code);
            !(a[i] && b[i]) && (a[i] || b[i] <==> z[i] != 0.0)
    ensures k == h.kCentroid ==> !QuantizeKey(num, h, k).code[i]
  {
    hide Dot, Reconstruct;
    DotScale(-1.0, Residual(h, k), h.rotation[i]);
    if k == h.kCentroid {
      assert Residual(h, k) == Zero(h.d);
      DotZero(h.rotation[i]);
    }
  }

  lemma {:induction false} NothingLeft(bar: Vec, r: Vec, g: real)
    requires g == 0.0 && |bar| == |r| && forall i :: 0 <= i < |r| ==> r[i] == 0.0
    ensures Sub(Scale(g, bar), r) == Zero(|r|)
  {
  }

  /** The part of the estimate that comes from the residuals. */
  function ResidualEstimate(num: Numerics, h: Head, k: Vec, q: Vec): real
    requires QueryAndKey(num, h, k, q)
    requires QuantizeKey(num, h, k).oObar + num.eps != 0.0
  {
    Estimate(num, h, QuantizeKey(num, h, k), q) - (Dot(q, h.kCentroid) + Dot(k, h.qCentroid) - h.cqDotCk)
  }

  /** The exact effect of `eps > 0`: it rescales the residual part of the `eps == 0` estimate and nothing else. */
  lemma {:induction false} EpsOnlyRescales(num: Numerics, h: Head, k: Vec, q: Vec)
    requires QueryAndKey(num, h, k, q) && k != h.kCentroid
    ensures var clean := num.(eps := 0.0);
            var kc, kc0 := QuantizeKey(num, h, k), QuantizeKey(clean, h, k);
            && kc.oObar + num.eps > 0.0 && kc0.oObar > 0.0
            && kc == kc0.(oObar := kc.oObar)
            && kc.oObar * (kc.norm + num.eps) == kc0.oObar * kc.norm
            && ResidualEstimate(num, h, k, q) * (kc.oObar + num.eps) == ResidualEstimate(clean, h, k, q) * kc0.oObar
  {
    hide Dot, Dequantize, Times, TimesTransposed, L1, QuantizeKey, Scale;
    var clean := num.(eps := 0.0);
    StoredDotBounds(num, h, k);
    StoredDotBounds(clean, h, k);
    StoredNorm(num, h, k);
    StoredNorm(clean, h, k);
    KeyGeometry(num, h, k);
    KeyGeometry(clean, h, k);
    var kc, kc0 := QuantizeKey(num, h, k), QuantizeKey(clean, h, k);
    assert Reconstruct(num, h, kc.code) == Reconstruct(clean, h, kc0.code);
    SqrtDPositive(num, h);
    var x := Dot(TimesTransposed(Sub(q, h.qCentroid), h.rotation), Dequantize(kc.code, SqrtD(num, h)));
    ScaledQuotient(kc.norm, x, kc.oObar + num.eps);
    ScaledQuotient(kc.norm, x, kc0.oObar);
  }

  lemma {:induction false} ScaledQuotient(n: real, x: real, t: real)
    requires t > 0.0
    ensures n * (x / t) * t == n * x
  {
    assert x / t * t == x;
    assert n * (x / t) * t == n * (x / t * t);
  }

  // ----- the variant with both centroids at zero

  function NoCenterHead(rotation: Matrix, d: nat): Head {
    Head(d, rotation, Zero(d), Zero(d), 0.0)
  }

  lemma {:induction false} NoCenterErrorBound(num: Numerics, rotation: Matrix, k: Vec, q: Vec)
    requires ValidNumerics(num) && num.eps == 0.0 && |k| > 0 && |q| == |k| && Orthogonal(rotation, |k|)
    requires k != Zero(|k|)
    ensures var h := NoCenterHead(rotation, |k|);
            && Quantizable(num, h, k)
            && var kc := QuantizeKey(num, h, k);
               kc.oObar > 0.0
               && Square(Estimate(num, h, kc, q) - Dot(q, k)) <= CleanBound(Dot(k, k), Dot(q, q), kc.oObar)
  {
    hide Dot, Dequantize, Times, TimesTransposed, L1, QuantizeKey, Scale, CleanBound, Estimate, Sub, Square;
    var h := NoCenterHead(rotation, |k|);
    DotZero(Zero(|k|));
    SubZero(k);
    SubZero(q);
    CleanErrorBound(num, h, k, q);
  }

  lemma {:induction false} SubZero(a: Vec)
    ensures Sub(a, Zero(|a|)) == a
  {
  }
}
