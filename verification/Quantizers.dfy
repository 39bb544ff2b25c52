/** The two per-token quantisers, over exact reals: quantise a row to integer codes and dequantise it back. */
module Quantizers {
  import opened Arithmetic

  // ----- rounding to the nearest integer, ties to even

  function Round(x: real): int {
    var low := x.Floor;
    var frac := x - low as real;
    if frac < 0.5 then low else if frac > 0.5 then low + 1 else if low % 2 == 0 then low else low + 1
  }

  lemma {:induction false} RoundIsNearest(x: real)
    ensures x - 0.5 <= Round(x) as real <= x + 0.5
  {
  }

  /** No integer is nearer, and of two equally near ones it is the even one. */
  lemma {:induction false} RoundIsBest(x: real, n: int)
    ensures Abs(x - Round(x) as real) <= Abs(x - n as real)
    ensures Abs(x - Round(x) as real) == Abs(x - n as real) && n != Round(x) ==> Round(x) % 2 == 0
  {
  }

  lemma {:induction false} RoundOfInteger(n: int)
    ensures Round(n as real) == n
  {
  }

  /** Rounding cannot pass an integer bound. */
  lemma {:induction false} RoundWithin(x: real, lo: int, hi: int)
    requires lo as real <= x <= hi as real
    ensures lo <= Round(x) <= hi
  {
  }

  function Max(row: seq<real>): (m: real)
    requires row != []
    ensures (exists i :: 0 <= i < |row| && row[i] == m) && forall i :: 0 <= i < |row| ==> row[i] <= m
  {
    if |row| == 1 then row[0]
    else
      var (rest, last) := (Max(row[..|row| - 1]), row[|row| - 1]);
      if last > rest then last else rest
  }

  function Min(row: seq<real>): (m: real)
    requires row != []
    ensures (exists i :: 0 <= i < |row| && row[i] == m) && forall i :: 0 <= i < |row| ==> m <= row[i]
  {
    if |row| == 1 then row[0]
    else
      var (rest, last) := (Min(row[..|row| - 1]), row[|row| - 1]);
      if last < rest then last else rest
  }

  lemma {:induction false} MaxIsUnique(row: seq<real>, m: real)
    requires row != [] && m in row && forall i :: 0 <= i < |row| ==> row[i] <= m
    ensures Max(row) == m
  {
  }

  lemma {:induction false} MinIsUnique(row: seq<real>, m: real)
    requires row != [] && m in row && forall i :: 0 <= i < |row| ==> m <= row[i]
    ensures Min(row) == m
  {
  }

  // ----- one element on a grid of step s

  function Clamp(n: int, lo: int, hi: int): int {
    if n < lo then lo else if n > hi then hi else n
  }

  lemma {:induction false} QuotientWithin(x: real, s: real, lo: int, hi: int)
    requires s > 0.0 && Grid(lo, s) <= x <= Grid(hi, s)
    ensures lo as real <= x / s <= hi as real
  {
    var y := x / s;
    assert y * s == x;
    if y < lo as real {
      NonNegativeProduct(lo as real - y, s);
    }
    assert (y - lo as real) * s >= 0.0;
    assert (hi as real - y) * s >= 0.0;
  }

  /** The dequantised value of a code. */
  function Grid(c: int, s: real): real {
    c as real * s
  }

  /** Rounding x to the grid moves it by at most half a step. */
  lemma {:induction false} GridError(x: real, s: real)
    requires s > 0.0
    ensures x - s / 2.0 <= Grid(Round(x / s), s) <= x + s / 2.0
  {
    hide Round;
    var (y, n) := (x / s, Round(x / s) as real);
    RoundIsNearest(y);
    assert y * s == x;
    NonNegativeProduct(n - y + 0.5, s);
    NonNegativeProduct(y - n + 0.5, s);
  }

  /** A grid point rounds to its own code. */
  lemma {:induction false} GridFixed(n: int, s: real)
    requires s > 0.0
    ensures Round(Grid(n, s) / s) == n && Grid(0, s) == 0.0
  {
    assert n as real * s / s == n as real;
    RoundOfInteger(n);
  }

  lemma {:induction false} GridOrder(c: int, m: int, s: real)
    requires s > 0.0 && 0 <= c <= m
    ensures 0.0 <= Grid(c, s) <= Grid(m, s)
  {
    NonNegativeProduct(c as real, s);
    NonNegativeProduct((m - c) as real, s);
    assert m as real * s == c as real * s + (m - c) as real * s;
  }

  // ----- the min-max quantiser

  const RANGE_FLOOR := 0.000000001

  function AtLeast(x: real, floor: real): real {
    if x < floor then floor else x
  }

  function MinMaxScale(lo: real, hi: real, qbit: nat): (s: real)
    requires qbit >= 1
    ensures s > 0.0
  {
    AtLeast(hi - lo, RANGE_FLOOR) / (Pow2(qbit) - 1) as real
  }

  function MinMaxCode(lo: real, s: real, qbit: nat, x: real): int
    requires s > 0.0
  {
    Clamp(Round((x + -lo) / s), 0, Pow2(qbit) - 1)
  }

  function MinMaxQuant(row: seq<real>, qbit: nat): (r: seq<real>)
    requires row != [] && qbit >= 1
    ensures |r| == |row|
  {
    var lo := Min(row);
    var s := MinMaxScale(lo, Max(row), qbit);
    seq(|row|, i requires 0 <= i < |row| => Grid(MinMaxCode(lo, s, qbit, row[i]), s) - -lo)
  }

  /** The steps of the grid span the row's range, or the floor. */
  lemma {:induction false} ScaleTimesCodes(lo: real, hi: real, qbit: nat)
    requires qbit >= 1
    ensures Grid(Pow2(qbit) - 1, MinMaxScale(lo, hi, qbit)) == AtLeast(hi - lo, RANGE_FLOOR)
  {
    Cancel((Pow2(qbit) - 1) as real, AtLeast(hi - lo, RANGE_FLOOR));
  }

  lemma {:induction false} Cancel(m: real, x: real)
    requires m > 0.0
    ensures m * (x / m) == x
  {
  }

  /** The clamp never acts: the rounded quotient already is a code in `[0, 2^qbit - 1]`. */
  lemma {:induction false} CodeIsRounded(lo: real, hi: real, qbit: nat, x: real)
    requires qbit >= 1 && lo <= x <= hi
    ensures var (s, m) := (MinMaxScale(lo, hi, qbit), Pow2(qbit) - 1);
            0 <= MinMaxCode(lo, s, qbit, x) == Round((x - lo) / s) <= m
  {
    hide MinMaxScale, Round, Grid;
    var (s, m) := (MinMaxScale(lo, hi, qbit), Pow2(qbit) - 1);
    ScaleTimesCodes(lo, hi, qbit);
    GridFixed(0, s);
    QuotientWithin(x - lo, s, 0, m);
    RoundWithin((x - lo) / s, 0, m);
  }

  /** Everything about one quantised element: its code is in range, it is at most half a step from the original,
      and it lies between the row's minimum and the (clamped) end of its range. */
  lemma {:induction false} MinMaxElement(row: seq<real>, qbit: nat, i: nat)
    requires row != [] && qbit >= 1 && i < |row|
    ensures var (lo, hi) := (Min(row), Max(row));
            var s := MinMaxScale(lo, hi, qbit);
            var c := MinMaxCode(lo, s, qbit, row[i]);
            && 0 <= c <= Pow2(qbit) - 1
            && MinMaxQuant(row, qbit)[i] == Grid(c, s) + lo
            && row[i] - s / 2.0 <= MinMaxQuant(row, qbit)[i] <= row[i] + s / 2.0
            && lo <= MinMaxQuant(row, qbit)[i] <= lo + AtLeast(hi - lo, RANGE_FLOOR)
  {
    hide MinMaxScale, Round, Min, Max, Grid, MinMaxCode;
    var (lo, hi, m) := (Min(row), Max(row), Pow2(qbit) - 1);
    var s := MinMaxScale(lo, hi, qbit);
    CodeIsRounded(lo, hi, qbit, row[i]);
    GridError(row[i] - lo, s);
    ScaleTimesCodes(lo, hi, qbit);
    GridOrder(MinMaxCode(lo, s, qbit, row[i]), m, s);
  }

  /** The smallest element is reproduced exactly, and so is the largest when the range is not clamped. */
  lemma {:induction false} ExtremesReproduced(row: seq<real>, qbit: nat, i: nat)
    requires row != [] && qbit >= 1 && i < |row|
    ensures row[i] == Min(row) ==> MinMaxQuant(row, qbit)[i] == row[i]
    ensures row[i] == Max(row) && Max(row) - Min(row) >= RANGE_FLOOR ==> MinMaxQuant(row, qbit)[i] == row[i]
  {
    hide MinMaxScale, Round, Min, Max, Grid, MinMaxCode, MinMaxQuant;
    var (lo, hi, m) := (Min(row), Max(row), Pow2(qbit) - 1);
    var s := MinMaxScale(lo, hi, qbit);
    MinMaxElement(row, qbit, i);
    CodeIsRounded(lo, hi, qbit, row[i]);
    ScaleTimesCodes(lo, hi, qbit);
    GridFixed(0, s);
    GridFixed(m, s);
  }

  /** A quantised row has the same minimum and the same scale as the row it came from. */
  lemma {:induction false} QuantisedSpan(row: seq<real>, qbit: nat)
    requires row != [] && qbit >= 1
    ensures var (r, lo, s) := (MinMaxQuant(row, qbit), Min(row), MinMaxScale(Min(row), Max(row), qbit));
            Min(r) == lo && MinMaxScale(Min(r), Max(r), qbit) == s
  {
    hide Round, Grid, MinMaxCode, MinMaxQuant, MinMaxScale, Min, Max;
    var (r, lo, hi) := (MinMaxQuant(row, qbit), Min(row), Max(row));
    var a :| 0 <= a < |row| && row[a] == lo;
    var b :| 0 <= b < |row| && row[b] == hi;
    ExtremesReproduced(row, qbit, a);
    ExtremesReproduced(row, qbit, b);
    forall i | 0 <= i < |row| ensures lo <= r[i] <= lo + AtLeast(hi - lo, RANGE_FLOOR) {
      MinMaxElement(row, qbit, i);
    }
    assert r[a] in r;
    MinIsUnique(r, lo);
    if hi - lo >= RANGE_FLOOR {
      assert r[b] in r;
      MaxIsUnique(r, hi);
    } else {
      ClampedScale(lo, hi, Max(r), qbit);
    }
  }

  lemma {:induction false} ClampedScale(lo: real, hi: real, top: real, qbit: nat)
    requires qbit >= 1 && hi - lo < RANGE_FLOOR && top - lo <= RANGE_FLOOR
    ensures MinMaxScale(lo, top, qbit) == MinMaxScale(lo, hi, qbit)
  {
  }

  /** Quantising twice is quantising once, the clamped scale included. */
  lemma {:induction false} MinMaxIdempotent(row: seq<real>, qbit: nat)
    requires row != [] && qbit >= 1
    ensures MinMaxQuant(MinMaxQuant(row, qbit), qbit) == MinMaxQuant(row, qbit)
  {
    hide MinMaxScale, Round, Min, Max, Grid, MinMaxQuant, MinMaxCode;
    var (r, lo) := (MinMaxQuant(row, qbit), Min(row));
    var s := MinMaxScale(lo, Max(row), qbit);
    QuantisedSpan(row, qbit);
    forall i | 0 <= i < |row| ensures MinMaxQuant(r, qbit)[i] == r[i] {
      MinMaxElement(row, qbit, i);
      MinMaxElement(r, qbit, i);
      CodeIsRounded(lo, Max(r), qbit, r[i]);
      GridFixed(MinMaxCode(lo, s, qbit, row[i]), s);
    }
  }

  // ----- the symmetric quantiser

  const SCALE_FLOOR := 0.000001

  function Abs(x: real): (r: real)
    ensures r >= 0.0
  {
    if x < 0.0 then -x else x
  }

  function MaxAbs(row: seq<real>): (m: real)
    requires row != []
    ensures m >= 0.0
    ensures (exists i :: 0 <= i < |row| && Abs(row[i]) == m) && forall i :: 0 <= i < |row| ==> Abs(row[i]) <= m
  {
    if |row| == 1 then Abs(row[0])
    else
      var (rest, last) := (MaxAbs(row[..|row| - 1]), Abs(row[|row| - 1]));
      if last > rest then last else rest
  }

  function SignOf(x: real): real {
    if x > 0.0 then 1.0 else if x < 0.0 then -1.0 else 0.0
  }

  function SymmetricScale(top: real, qbit: nat): (s: real)
    requires qbit >= 1
    ensures s >= SCALE_FLOOR
  {
    AtLeast(top / (Pow2(qbit) - 1) as real, SCALE_FLOOR)
  }

  /** One row without smoothing; one bit keeps only the signs. */
  function SymmetricQuant(row: seq<real>, qbit: nat): (r: seq<real>)
    requires row != [] && qbit >= 1
    ensures |r| == |row|
  {
    if qbit == 1 then seq(|row|, i requires 0 <= i < |row| => SignOf(row[i]))
    else
      var s := SymmetricScale(MaxAbs(row), qbit);
      seq(|row|, i requires 0 <= i < |row| => Grid(Round(row[i] / s), s))
  }

  /** One bit keeps exactly the signs: minus one, zero or one, zero only for zero. */
  lemma {:induction false} OneBitKeepsSigns(row: seq<real>, i: nat)
    requires row != [] && i < |row|
    ensures var r := SymmetricQuant(row, 1)[i];
            r in {-1.0, 0.0, 1.0} && r * Abs(row[i]) == row[i] && (r == 0.0 <==> row[i] == 0.0)
  {
  }

  /** Every element moves by at most half a step and stays on the signed grid. */
  lemma {:induction false} SymmetricElement(row: seq<real>, qbit: nat, i: nat)
    requires row != [] && qbit > 1 && i < |row|
    ensures var (s, m) := (SymmetricScale(MaxAbs(row), qbit), Pow2(qbit) - 1);
            && -m <= Round(row[i] / s) <= m
            && SymmetricQuant(row, qbit)[i] == Grid(Round(row[i] / s), s)
            && row[i] - s / 2.0 <= SymmetricQuant(row, qbit)[i] <= row[i] + s / 2.0
  {
    hide Round, MaxAbs, Grid;
    var (top, m) := (MaxAbs(row), Pow2(qbit) - 1);
    var s := SymmetricScale(top, qbit);
    TopOnGrid(top, qbit);
    QuotientWithin(row[i], s, -m, m);
    RoundWithin(row[i] / s, -m, m);
    GridError(row[i], s);
  }

  /** The grid spans the largest magnitude, or the floor. */
  lemma {:induction false} ScaleSpans(top: real, qbit: nat)
    requires qbit > 1
    ensures Grid(Pow2(qbit) - 1, SymmetricScale(top, qbit)) == AtLeast(top, Grid(Pow2(qbit) - 1, SCALE_FLOOR))
  {
    var m := (Pow2(qbit) - 1) as real;
    hide Pow2;
    Cancel(m, top);
    if top / m < SCALE_FLOOR {
      NonNegativeProduct(SCALE_FLOOR - top / m, m);
    } else {
      NonNegativeProduct(top / m - SCALE_FLOOR, m);
    }
  }

  /** The largest magnitude fits the grid, and is its end point unless the scale is clamped. */
  lemma {:induction false} TopOnGrid(top: real, qbit: nat)
    requires top >= 0.0 && qbit >= 1
    ensures var (s, m) := (SymmetricScale(top, qbit), Pow2(qbit) - 1);
            && Grid(-m, s) <= -top && top <= Grid(m, s) && Grid(-m, s) == -Grid(m, s)
            && (s > SCALE_FLOOR ==> top == Grid(m, s))
  {
    var (s, m) := (SymmetricScale(top, qbit), (Pow2(qbit) - 1) as real);
    Cancel(m, top);
    NonNegativeProduct(s - top / m, m);
  }

  /** A quantised row has the same scale again. */
  lemma {:induction false} SymmetricSpan(row: seq<real>, qbit: nat)
    requires row != [] && qbit > 1
    ensures SymmetricScale(MaxAbs(SymmetricQuant(row, qbit)), qbit) == SymmetricScale(MaxAbs(row), qbit)
  {
    hide Round, MaxAbs, Grid, SymmetricQuant, SymmetricScale;
    var (r, top, m) := (SymmetricQuant(row, qbit), MaxAbs(row), Pow2(qbit) - 1);
    var s := SymmetricScale(top, qbit);
    TopOnGrid(top, qbit);
    forall i | 0 <= i < |row| ensures Abs(r[i]) <= Grid(m, s) {
      SymmetricElement(row, qbit, i);
      SignedGrid(Round(row[i] / s), m, s);
    }
    ScaleOfGrid(qbit, s);
    if s > SCALE_FLOOR {
      var b :| 0 <= b < |row| && Abs(row[b]) == top;
      SymmetricElement(row, qbit, b);
      GridFixed(m, s);
      GridFixed(-m, s);
      assert Abs(r[b]) == top;
    }
    ScaleMonotone(MaxAbs(r), Grid(m, s), qbit);
  }

  lemma {:induction false} SignedGrid(c: int, m: int, s: real)
    requires s > 0.0 && -m <= c <= m
    ensures Abs(Grid(c, s)) <= Grid(m, s)
  {
    NonNegativeProduct((m - c) as real, s);
    NonNegativeProduct((m + c) as real, s);
    assert m as real * s == c as real * s + (m - c) as real * s;
    assert m as real * s == (m + c) as real * s - c as real * s;
  }

  /** A row whose largest magnitude is the grid's end point has that grid's step as its scale. */
  lemma {:induction false} ScaleOfGrid(qbit: nat, s: real)
    requires qbit >= 1 && s >= SCALE_FLOOR
    ensures SymmetricScale(Grid(Pow2(qbit) - 1, s), qbit) == s
  {
    var m := (Pow2(qbit) - 1) as real;
    hide Pow2;
    SameFactor(m, Grid(Pow2(qbit) - 1, s) / m, s);
  }

  lemma {:induction false} SameFactor(m: real, x: real, s: real)
    requires m > 0.0 && x == m * s / m
    ensures x == s
  {
    Cancel(m, m * s);
    assert m * (x - s) == 0.0;
  }

  lemma {:induction false} ScaleMonotone(x: real, y: real, qbit: nat)
    requires qbit >= 1 && x <= y
    ensures SymmetricScale(x, qbit) <= SymmetricScale(y, qbit)
  {
    var m := (Pow2(qbit) - 1) as real;
    Cancel(m, x);
    Cancel(m, y);
    if x / m > y / m {
      NonNegativeProduct(x / m - y / m, m);
    }
  }

  /** Quantising twice is quantising once, at one bit and above. */
  lemma {:induction false} SymmetricIdempotent(row: seq<real>, qbit: nat)
    requires row != [] && qbit >= 1
    ensures SymmetricQuant(SymmetricQuant(row, qbit), qbit) == SymmetricQuant(row, qbit)
  {
    if qbit > 1 {
      var (r, s) := (SymmetricQuant(row, qbit), SymmetricScale(MaxAbs(row), qbit));
      hide Round, MaxAbs, Grid, SymmetricQuant, SymmetricScale;
      SymmetricSpan(row, qbit);
      forall i | 0 <= i < |row| ensures SymmetricQuant(r, qbit)[i] == r[i] {
        SymmetricElement(row, qbit, i);
        SymmetricElement(r, qbit, i);
        GridFixed(Round(row[i] / s), s);
      }
    }
  }
}
