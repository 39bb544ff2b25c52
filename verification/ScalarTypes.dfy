/** Scalar type descriptors: packing six fields into an identifier, and the largest value of a float type. */
module ScalarTypes {
  import opened Wrappers
  import opened Arithmetic

  datatype NanRepr = NoNan | Ieee754 | ExtdRangeMaxMin {
    function Value(): nat {
      match this
      case NoNan => 0
      case Ieee754 => 1
      case ExtdRangeMaxMin => 2
    }
  }

  datatype ScalarType = ScalarType(
    exponent: int,
    mantissa: int,
    signed: bool,
    bias: int,
    finiteValuesOnly: bool,
    nanRepr: NanRepr)

  // ----- Python's integer bit operations, on two's complement of any length

  function Shift(a: int, n: nat): int {
    a * Pow2(n)
  }

  function BitAnd(a: int, b: nat): (r: nat)
    decreases b
  {
    if b == 0 then 0 else (if a % 2 == 1 && b % 2 == 1 then 1 else 0) + 2 * BitAnd(a / 2, b / 2)
  }

  function BitOr(a: int, b: int): int
    decreases if a < 0 then -a else a
  {
    if a == 0 then b
    else if a == -1 then -1
    else (if a % 2 == 1 || b % 2 == 1 then 1 else 0) + 2 * BitOr(a / 2, b / 2)
  }

  lemma {:induction false} Pow2Adds(m: nat, n: nat)
    ensures Pow2(m + n) == Pow2(m) * Pow2(n)
  {
    if m > 0 {
      Pow2Adds(m - 1, n);
      Reassociate(Pow2(m - 1), Pow2(n));
    }
  }

  lemma {:induction false} Reassociate(x: int, y: int)
    ensures 2 * x * y == 2 * (x * y)
  {
  }

  /** Masking with `2^w - 1` is the residue modulo `2^w`, for negative numbers too. */
  lemma {:induction false} MaskIsResidue(a: int, w: nat)
    ensures BitAnd(a, Pow2(w) - 1) == a % Pow2(w)
    decreases w
  {
    hide BitAnd;
    if w == 0 {
      NothingMasked(a);
    }
    if w > 0 {
      MaskIsResidue(a / 2, w - 1);
      MaskOneBit(a, Pow2(w - 1));
      HalveResidue(a, Pow2(w - 1));
    }
  }

  lemma {:induction false} NothingMasked(a: int)
    ensures BitAnd(a, 0) == 0
  {
  }

  lemma {:induction false} MaskOneBit(a: int, p: nat)
    requires p > 0
    ensures BitAnd(a, 2 * p - 1) == a % 2 + 2 * BitAnd(a / 2, p - 1)
  {
    assert (2 * p - 1) / 2 == p - 1 && (2 * p - 1) % 2 == 1;
  }

  lemma {:induction false} HalveResidue(a: int, p: int)
    requires p >= 1
    ensures a % (2 * p) == a % 2 + 2 * (a / 2 % p)
  {
    var (h, r) := (a / 2, a / 2 % p);
    assert h == p * (h / p) + r;
    assert a == 2 * p * (h / p) + (a % 2 + 2 * r);
    ResidueOf(a, 2 * p, h / p, a % 2 + 2 * r);
  }

  lemma {:induction false} ResidueOf(a: int, m: int, q: int, r: int)
    requires m > 0 && a == m * q + r && 0 <= r < m
    ensures a % m == r && a / m == q
  {
    var gap := a / m - q;
    assert a == m * (a / m) + a % m;
    assert m * gap == r - a % m;
    assert gap >= 1 ==> m * gap >= m;
    assert gap <= -1 ==> m * gap <= -m;
  }

  /** Or-ing in bits above all set ones is addition. */
  lemma {:induction false} OrAbove(a: nat, b: nat, k: nat)
    requires a < Pow2(k)
    ensures BitOr(a, Shift(b, k)) == a + Shift(b, k)
    decreases k
  {
    hide BitOr, Shift;
    OrZero(Shift(b, k));
    if a > 0 {
      ShiftDoubles(b, k - 1);
      OrAbove(a / 2, b, k - 1);
      OrEven(a, Shift(b, k - 1));
    }
  }

  lemma {:induction false} ShiftDoubles(b: int, k: nat)
    ensures Shift(b, k + 1) == 2 * Shift(b, k)
  {
    assert b * (2 * Pow2(k)) == 2 * (b * Pow2(k));
  }

  lemma {:induction false} OrZero(b: int)
    ensures BitOr(0, b) == b
  {
  }

  lemma {:induction false} OrEven(a: nat, half: int)
    requires a > 0
    ensures BitOr(a, 2 * half) == a % 2 + 2 * BitOr(a / 2, half)
  {
  }

  /** Bit k of an integer in two's complement. */
  function Bit(x: int, k: nat): bool {
    x / Pow2(k) % 2 == 1
  }

  lemma {:induction false} BitStep(x: int, k: nat)
    ensures Bit(x, 0) == (x % 2 == 1)
    ensures Bit(x, k + 1) == Bit(x / 2, k)
  {
    HalvesFirst(x, Pow2(k));
  }

  lemma {:induction false} HalvesFirst(x: int, p: nat)
    requires p > 0
    ensures x / (2 * p) == x / 2 / p
  {
    var (h, q) := (x / 2, x / 2 / p);
    assert h == p * q + h % p;
    assert x == 2 * p * q + (2 * (h % p) + x % 2);
    ResidueOf(x, 2 * p, q, 2 * (h % p) + x % 2);
  }

  /** The two operations work bit by bit. */
  lemma {:induction false} BitwiseOr(a: int, b: int, k: nat)
    ensures Bit(BitOr(a, b), k) <==> Bit(a, k) || Bit(b, k)
    decreases k
  {
    if a == 0 {
      NoBits(k);
    } else if a == -1 {
      AllBits(k);
    } else {
      OrHalves(a, b);
      hide Bit, BitOr;
      BitStep(a, if k > 0 then k - 1 else 0);
      BitStep(b, if k > 0 then k - 1 else 0);
      BitStep(BitOr(a, b), if k > 0 then k - 1 else 0);
      if k > 0 {
        BitwiseOr(a / 2, b / 2, k - 1);
      }
    }
  }

  lemma {:induction false} OrHalves(a: int, b: int)
    requires a != 0 && a != -1
    ensures BitOr(a, b) / 2 == BitOr(a / 2, b / 2)
    ensures BitOr(a, b) % 2 == 1 <==> a % 2 == 1 || b % 2 == 1
  {
  }

  lemma {:induction false} NoBits(k: nat)
    ensures !Bit(0, k)
  {
  }

  lemma {:induction false} AllBits(k: nat)
    ensures Bit(-1, k)
  {
    hide Pow2;
    ResidueOf(-1, Pow2(k), -1, Pow2(k) - 1);
  }

  lemma {:induction false} BitwiseAnd(a: int, b: nat, k: nat)
    ensures Bit(BitAnd(a, b), k) <==> Bit(a, k) && Bit(b, k)
    decreases k
  {
    if b == 0 {
      NoBits(k);
    } else {
      AndHalves(a, b);
      hide Bit, BitAnd;
      BitStep(a, if k > 0 then k - 1 else 0);
      BitStep(b, if k > 0 then k - 1 else 0);
      BitStep(BitAnd(a, b), if k > 0 then k - 1 else 0);
      if k > 0 {
        BitwiseAnd(a / 2, b / 2, k - 1);
      }
    }
  }

  lemma {:induction false} AndHalves(a: int, b: nat)
    requires b != 0
    ensures BitAnd(a, b) / 2 == BitAnd(a / 2, b / 2)
    ensures BitAnd(a, b) % 2 == 1 <==> a % 2 == 1 && b % 2 == 1
  {
  }

  // ----- the identifier

  const WIDTHS: seq<nat> := [8, 8, 1, 32, 1, 8]

  function Fields(t: ScalarType): (r: seq<int>)
    ensures |r| == 6
  {
    [t.exponent, t.mantissa, if t.signed then 1 else 0, t.bias, if t.finiteValuesOnly then 1 else 0, t.nanRepr.Value()]
  }

  function Width(widths: seq<nat>): nat {
    if widths == [] then 0 else Width(widths[..|widths| - 1]) + widths[|widths| - 1]
  }

  /** Fields side by side, the first one lowest, each reduced to its width. */
  function Pack(fields: seq<int>, widths: seq<nat>): (r: nat)
    requires |fields| == |widths|
  {
    if fields == [] then 0
    else
      var (n, low) := (|fields| - 1, widths[..|fields| - 1]);
      Pack(fields[..n], low) + Shift(fields[n] % Pow2(widths[n]), Width(low))
  }

  lemma {:induction false} PackFits(fields: seq<int>, widths: seq<nat>)
    requires |fields| == |widths|
    ensures Pack(fields, widths) < Pow2(Width(widths))
  {
    if fields != [] {
      hide Pow2;
      var (n, low) := (|fields| - 1, widths[..|fields| - 1]);
      PackFits(fields[..n], low);
      Pow2Adds(widths[n], Width(low));
      TopDigit(Pack(fields[..n], low), fields[n] % Pow2(widths[n]), Pow2(Width(low)), Pow2(widths[n]));
    }
  }

  lemma {:induction false} TopDigit(low: int, digit: int, p: int, q: int)
    requires 0 <= low < p && 0 <= digit < q
    ensures 0 <= low + digit * p < q * p
  {
    NonNegativeIntProduct(q - digit - 1, p);
    NonNegativeIntProduct(digit, p);
    assert q * p == (q - digit - 1) * p + digit * p + p;
  }

  /** Two packings agree exactly when every field agrees modulo its width. */
  lemma {:induction false} PackInjective(a: seq<int>, b: seq<int>, widths: seq<nat>)
    requires |a| == |b| == |widths|
    ensures Pack(a, widths) == Pack(b, widths)
            <==> SameResidues(a, b, widths)
  {
    if a != [] {
      hide Pow2;
      var (n, low) := (|a| - 1, widths[..|a| - 1]);
      PackInjective(a[..n], b[..n], low);
      PackFits(a[..n], low);
      PackFits(b[..n], low);
      DigitsAgree(Pack(a[..n], low), a[n] % Pow2(widths[n]), Pack(b[..n], low), b[n] % Pow2(widths[n]),
                  Pow2(Width(low)));
    }
  }

  lemma {:induction false} DigitsAgree(x: int, d: int, y: int, e: int, p: int)
    requires 0 <= x < p && 0 <= y < p
    ensures x + d * p == y + e * p <==> x == y && d == e
  {
    if x + d * p == y + e * p {
      ResidueOf(x + d * p, p, d, x);
      ResidueOf(y + e * p, p, e, y);
    }
  }

  function IdOf(t: ScalarType): nat {
    Pack(Fields(t), WIDTHS)
  }

  /** One field: mask it, shift it past the bits used so far, or it in. */
  method OrAndAdvance(val: nat, offset: nat, member: int, bitWidth: nat) returns (val': nat, offset': nat)
    requires val < Pow2(offset)
    ensures val' == val + Shift(member % Pow2(bitWidth), offset)
    ensures offset' == offset + bitWidth
  {
    var bitMask := Shift(1, bitWidth) - 1;
    hide Pow2, BitAnd, BitOr;
    MaskIsResidue(member, bitWidth);
    OrAbove(val, BitAnd(member, bitMask), offset);
    val' := BitOr(val, Shift(BitAnd(member, bitMask), offset));
    offset' := offset + bitWidth;
  }

  lemma {:induction false} PackOneMore(fields: seq<int>, widths: seq<nat>, n: nat)
    requires |fields| == |widths| && n < |fields|
    ensures Pack(fields[..n], widths[..n]) < Pow2(Width(widths[..n]))
    ensures Pack(fields[..n + 1], widths[..n + 1])
            == Pack(fields[..n], widths[..n]) + Shift(fields[n] % Pow2(widths[n]), Width(widths[..n]))
    ensures Width(widths[..n + 1]) == Width(widths[..n]) + widths[n]
  {
    PackFits(fields[..n], widths[..n]);
    assert fields[..n + 1][..n] == fields[..n] && widths[..n + 1][..n] == widths[..n];
  }

  /** The six fields take 58 bits. */
  lemma {:induction false} TotalWidth()
    ensures Width(WIDTHS) == 58
  {
    hide Pack, Pow2;
    assert WIDTHS[..6] == WIDTHS;
    assert Width(WIDTHS[..0]) == 0;
    PackOneMore([0, 0, 0, 0, 0, 0], WIDTHS, 0);
    PackOneMore([0, 0, 0, 0, 0, 0], WIDTHS, 1);
    PackOneMore([0, 0, 0, 0, 0, 0], WIDTHS, 2);
    PackOneMore([0, 0, 0, 0, 0, 0], WIDTHS, 3);
    PackOneMore([0, 0, 0, 0, 0, 0], WIDTHS, 4);
    PackOneMore([0, 0, 0, 0, 0, 0], WIDTHS, 5);
  }

  /** The ranges of the C++ descriptor's members. */
  predicate InRange(t: ScalarType) {
    0 <= t.exponent < 256 && 0 <= t.mantissa < 256 && -0x8000_0000 <= t.bias < 0x8000_0000
  }

  /** Equal up to the bits an identifier keeps. */
  predicate SameBits(a: ScalarType, b: ScalarType) {
    && a.exponent % 256 == b.exponent % 256 && a.mantissa % 256 == b.mantissa % 256
    && a.bias % 0x1_0000_0000 == b.bias % 0x1_0000_0000
    && a.signed == b.signed && a.finiteValuesOnly == b.finiteValuesOnly && a.nanRepr == b.nanRepr
  }

  lemma {:induction false} PowersUsed()
    ensures Pow2(1) == 2 && Pow2(8) == 256 && Pow2(32) == 0x1_0000_0000
  {
    assert Pow2(2) == 4 && Pow2(4) == 16;
    Pow2Adds(4, 4);
    Pow2Adds(8, 8);
    Pow2Adds(16, 16);
  }

  /** Two identifiers agree exactly when the types agree up to the kept bits; for in-range types, when they are
      equal. */
  lemma {:induction false} IdInjectiveIff(a: ScalarType, b: ScalarType)
    ensures IdOf(a) == IdOf(b) <==> SameBits(a, b)
    ensures InRange(a) && InRange(b) ==> (IdOf(a) == IdOf(b) <==> a == b)
  {
    hide Pack, Pow2, Fields, SameResidues, SameBits, InRange;
    PackInjective(Fields(a), Fields(b), WIDTHS);
    ResiduesMeanSameBits(a, b);
    SameBitsInRange(a, b);
  }

  lemma {:induction false} SameBitsInRange(a: ScalarType, b: ScalarType)
    ensures a == b ==> SameBits(a, b)
    ensures InRange(a) && InRange(b) && SameBits(a, b) ==> a == b
  {
  }

  ghost predicate SameResidues(a: seq<int>, b: seq<int>, widths: seq<nat>)
    requires |a| == |b| == |widths|
  {
    forall i :: 0 <= i < |a| ==> a[i] % Pow2(widths[i]) == b[i] % Pow2(widths[i])
  }

  lemma {:induction false} ResiduesMeanSameBits(a: ScalarType, b: ScalarType)
    ensures SameResidues(Fields(a), Fields(b), WIDTHS) <==> SameBits(a, b)
  {
    hide Pow2, Fields;
    PowersUsed();
    FieldsAre(a);
    FieldsAre(b);
    var (fa, fb) := (Fields(a), Fields(b));
    assert WIDTHS[0] == 8 && WIDTHS[1] == 8 && WIDTHS[2] == 1 && WIDTHS[3] == 32 && WIDTHS[4] == 1 && WIDTHS[5] == 8;
    if SameResidues(fa, fb, WIDTHS) {
      assert fa[0] % 256 == fb[0] % 256 && fa[1] % 256 == fb[1] % 256 && fa[2] % 2 == fb[2] % 2;
      assert fa[3] % 0x1_0000_0000 == fb[3] % 0x1_0000_0000 && fa[4] % 2 == fb[4] % 2 && fa[5] % 256 == fb[5] % 256;
    }
  }

  lemma {:induction false} FieldsAre(t: ScalarType)
    ensures var f := Fields(t);
            && f[0] == t.exponent && f[1] == t.mantissa && f[2] == (if t.signed then 1 else 0)
            && f[3] == t.bias && f[4] == (if t.finiteValuesOnly then 1 else 0) && f[5] == t.nanRepr.Value()
  {
  }

  // ----- the reader on the other side, which unpacks an identifier at fixed positions

  /** `(id >> offset) & (2^width - 1)` */
  function Extract(id: nat, offset: nat, width: nat): nat {
    BitAnd(id / Pow2(offset), Pow2(width) - 1)
  }

  /** A 32-bit pattern read as a signed number. */
  function AsInt32(bits: nat): int {
    if bits >= 0x8000_0000 then bits - 0x1_0000_0000 else bits
  }

  /** The constructor's members at their bit positions, and the enumeration's three values. */
  function FromBits(id: nat): Option<ScalarType> {
    var nan := Extract(id, 50, 8);
    var repr := if nan == 0 then Some(NoNan) else if nan == 1 then Some(Ieee754)
                else if nan == 2 then Some(ExtdRangeMaxMin) else None;
    match repr
    case None => None
    case Some(nanRepr) =>
      Some(ScalarType(Extract(id, 0, 8), Extract(id, 8, 8), Extract(id, 16, 1) == 1, AsInt32(Extract(id, 17, 32)),
                      Extract(id, 49, 1) == 1, nanRepr))
  }

  /** Reading a field at its offset gives back its residue. */
  lemma {:induction false} ExtractField(fields: seq<int>, widths: seq<nat>, n: nat)
    requires |fields| == |widths| && n < |fields|
    ensures Extract(Pack(fields, widths), Width(widths[..n]), widths[n]) == fields[n] % Pow2(widths[n])
  {
    MaskIsResidue(Pack(fields, widths) / Pow2(Width(widths[..n])), widths[n]);
    FieldAt(fields, widths, n);
  }

  lemma {:induction false} FieldAt(fields: seq<int>, widths: seq<nat>, n: nat)
    requires |fields| == |widths| && n < |fields|
    ensures Pack(fields, widths) / Pow2(Width(widths[..n])) % Pow2(widths[n]) == fields[n] % Pow2(widths[n])
  {
    hide Pow2;
    var (last, low) := (|fields| - 1, widths[..|fields| - 1]);
    var (rest, digit) := (Pack(fields[..last], low), fields[last] % Pow2(widths[last]));
    if n == last {
      PackFits(fields[..last], low);
      ResidueOf(rest + digit * Pow2(Width(low)), Pow2(Width(low)), digit, rest);
      ResidueOf(digit, Pow2(widths[n]), 0, digit);
    } else {
      FieldAt(fields[..last], low, n);
      assert low[..n] == widths[..n] && low[n] == widths[n];
      var above := WidthAbove(low, n);
      Pow2Adds(Width(low[..n]), widths[n] + above);
      Pow2Adds(widths[n], above);
      HigherDigit(rest, digit * Pow2(above), Pow2(Width(low[..n])), Pow2(widths[n]));
      Regroup(digit, Pow2(Width(low[..n])), Pow2(widths[n]), Pow2(above));
    }
  }

  /** The fields after field n take the rest of the width. */
  lemma {:induction false} WidthAbove(widths: seq<nat>, n: nat) returns (above: nat)
    requires n < |widths|
    ensures Width(widths) == Width(widths[..n]) + (widths[n] + above)
  {
    if n == |widths| - 1 {
      above := 0;
    } else {
      var low := widths[..|widths| - 1];
      above := WidthAbove(low, n);
      above := above + widths[|widths| - 1];
      assert low[..n] == widths[..n];
    }
  }

  lemma {:induction false} Regroup(d: int, p: int, q: int, s: int)
    ensures d * (p * (q * s)) == p * (q * (d * s))
  {
  }

  /** Adding a multiple of `p * q` changes neither the quotient by p modulo q. */
  lemma {:induction false} HigherDigit(x: nat, d: int, p: nat, q: nat)
    requires p > 0 && q > 0
    ensures (x + p * (q * d)) / p % q == x / p % q
  {
    assert x + p * (q * d) == p * (x / p + q * d) + x % p;
    ResidueOf(x + p * (q * d), p, x / p + q * d, x % p);
    assert x / p + q * d == q * (x / p / q + d) + x / p % q;
    ResidueOf(x / p + q * d, q, x / p / q + d, x / p % q);
  }

  /** The other side reads every in-range type back from its identifier. */
  lemma {:induction false} LayoutIsAgreed(t: ScalarType)
    requires InRange(t)
    ensures FromBits(IdOf(t)) == Some(t)
  {
    var f := Fields(t);
    Offsets();
    PowersUsed();
    hide Pack, Width, Pow2, BitAnd, Extract;
    ExtractField(f, WIDTHS, 0);
    ExtractField(f, WIDTHS, 1);
    ExtractField(f, WIDTHS, 2);
    ExtractField(f, WIDTHS, 3);
    ExtractField(f, WIDTHS, 4);
    ExtractField(f, WIDTHS, 5);
  }

  lemma {:induction false} Offsets()
    ensures Width(WIDTHS[..0]) == 0 && Width(WIDTHS[..1]) == 8 && Width(WIDTHS[..2]) == 16
    ensures Width(WIDTHS[..3]) == 17 && Width(WIDTHS[..4]) == 49 && Width(WIDTHS[..5]) == 50
  {
    hide Pack, Pow2;
    PackOneMore([0, 0, 0, 0, 0, 0], WIDTHS, 0);
    PackOneMore([0, 0, 0, 0, 0, 0], WIDTHS, 1);
    PackOneMore([0, 0, 0, 0, 0, 0], WIDTHS, 2);
    PackOneMore([0, 0, 0, 0, 0, 0], WIDTHS, 3);
    PackOneMore([0, 0, 0, 0, 0, 0], WIDTHS, 4);
  }

  // ----- the registry of identifiers

  type Registry = map<nat, ScalarType>

  function FromId(registry: Registry, id: nat): Option<ScalarType> {
    if id in registry then Some(registry[id]) else None
  }

  /** The registry after the identifiers of these types were first read in turn. */
  function Registered(types: seq<ScalarType>): Registry {
    if types == [] then map[]
    else Registered(types[..|types| - 1])[IdOf(types[|types| - 1]) := types[|types| - 1]]
  }

  /** Looking up an identifier gives the last registered type with the same kept bits, if any. */
  lemma {:induction false} LookupIsLast(types: seq<ScalarType>, t: ScalarType)
    ensures match FromId(Registered(types), IdOf(t))
            case None => forall i :: 0 <= i < |types| ==> !SameBits(types[i], t)
            case Some(s) => exists i :: 0 <= i < |types| && types[i] == s && SameBits(s, t)
                                        && forall j :: i < j < |types| ==> !SameBits(types[j], t)
  {
    hide IdOf, SameBits;
    if types != [] {
      var (front, last) := (types[..|types| - 1], types[|types| - 1]);
      assert types == front + [last];
      LookupIsLast(front, t);
      IdInjectiveIff(last, t);
      if SameBits(last, t) {
        assert types[|types| - 1] == last;
      } else if FromId(Registered(front), IdOf(t)).Some? {
        var s := FromId(Registered(front), IdOf(t)).value;
        var i :| 0 <= i < |front| && front[i] == s && SameBits(s, t)
                 && forall j :: i < j < |front| ==> !SameBits(front[j], t);
        assert types[i] == s;
      }
    }
  }

  /** In every registry built from in-range types, `from_id(t.id)` gives back t. */
  lemma {:induction false} RoundTrip(types: seq<ScalarType>, t: ScalarType)
    requires t in types && forall i :: 0 <= i < |types| ==> InRange(types[i])
    ensures FromId(Registered(types), IdOf(t)) == Some(t)
  {
    LookupIsLast(types, t);
    forall i | 0 <= i < |types| ensures SameBits(types[i], t) <==> types[i] == t {
      IdInjectiveIff(types[i], t);
    }
  }

  /** Out of range it can fail: a bias of `2^32` is stored over a bias of 0. */
  lemma {:induction false} BiasCanCollide(plain: ScalarType, wide: ScalarType)
    requires plain == ScalarType(0, 4, false, 0, false, Ieee754) && wide == plain.(bias := 0x1_0000_0000)
    ensures FromId(Registered([plain, wide]), IdOf(plain)) == Some(wide)
  {
    LookupIsLast([plain, wide], plain);
  }

  class ScalarTypeRegistry {
    var idMap: Registry

    constructor ()
      ensures idMap == map[]
    {
      idMap := map[];
    }

    /** Computes a type's identifier field by field and records the type under it. */
    method Record(t: ScalarType) returns (val: nat)
      modifies this
      ensures val == IdOf(t) && val < Pow2(58)
      ensures idMap == old(idMap)[IdOf(t) := t]
    {
      hide Pack, Width, Pow2, Shift;
      ghost var f := Fields(t);
      assert f[..0] == [] && WIDTHS[..0] == [] && f[..6] == f && WIDTHS[..6] == WIDTHS;
      EmptyPack();
      var offset: nat := 0;
      val := 0;
      PackOneMore(f, WIDTHS, 0);
      val, offset := OrAndAdvance(val, offset, t.exponent, 8);
      PackOneMore(f, WIDTHS, 1);
      val, offset := OrAndAdvance(val, offset, t.mantissa, 8);
      PackOneMore(f, WIDTHS, 2);
      val, offset := OrAndAdvance(val, offset, if t.signed then 1 else 0, 1);
      PackOneMore(f, WIDTHS, 3);
      val, offset := OrAndAdvance(val, offset, t.bias, 32);
      PackOneMore(f, WIDTHS, 4);
      val, offset := OrAndAdvance(val, offset, if t.finiteValuesOnly then 1 else 0, 1);
      PackOneMore(f, WIDTHS, 5);
      val, offset := OrAndAdvance(val, offset, t.nanRepr.Value(), 8);
      PackFits(f, WIDTHS);
      assert offset == 58 <= 64;
      idMap := idMap[val := t];
    }
  }

  /** A type descriptor. Its identifier is a cached property: only the first read computes and records it. */
  class ScalarTypeObject {
    const value: ScalarType
    var cachedId: Option<nat>

    constructor (value: ScalarType)
      ensures Valid() && this.value == value && cachedId.None?
    {
      this.value, cachedId := value, None;
    }

    ghost predicate Valid()
      reads this
    {
      cachedId.Some? ==> cachedId.value == IdOf(value)
    }

    /** Later reads give the same identifier and leave the registry alone, whatever it holds by then. */
    method Id(registry: ScalarTypeRegistry) returns (id: nat)
      requires Valid()
      modifies this, registry
      ensures Valid() && id == IdOf(value) && cachedId == Some(id)
      ensures registry.idMap == if old(cachedId).Some? then old(registry.idMap) else old(registry.idMap)[id := value]
    {
      if cachedId.Some? {
        id := cachedId.value;
      } else {
        id := registry.Record(value);
        cachedId := Some(id);
      }
    }
  }

  lemma {:induction false} EmptyPack()
    ensures Pack([], []) == 0 && Width([]) == 0 && Pow2(0) == 1
  {
  }

  // ----- the largest float, built as a binary64 bit pattern

  /** `2^k` for any integer k. */
  function Pow2Real(k: int): (r: real)
    ensures r > 0.0
  {
    if k >= 0 then Pow2(k) as real else 1.0 / Pow2(-k) as real
  }

  function Fraction(m: int, p: nat): real
    requires p > 0
  {
    m as real / p as real
  }

  /** A normal number with this unbiased exponent and fraction part. */
  function Normal(exponent: int, fraction: real): real {
    Pow2Real(exponent) * (1.0 + fraction)
  }

  /** The value of a normal binary64 pattern (section 3.4 of IEEE 754-2019); None for any other pattern and for
      integers that are no 64-bit pattern. */
  function Decode64(raw: int): Option<real> {
    var (sign, exponent, fraction) := (raw / Pow2(63), raw / Pow2(52) % 2048, raw % Pow2(52));
    if raw < 0 || raw >= Pow2(64) || exponent == 0 || exponent == 2047 then None
    else
      var magnitude := Normal(exponent - 1023, Fraction(fraction, Pow2(52)));
      Some(if sign == 0 then magnitude else -magnitude)
  }

  /** The two assertions of the source. */
  predicate FitsDouble(t: ScalarType) {
    t.mantissa <= 52 && t.exponent <= 11 && (t.nanRepr != Ieee754 ==> t.exponent < 11)
  }

  predicate FloatType(t: ScalarType) {
    t.exponent > 0 && t.mantissa >= 0
  }

  function MaxMantissa(t: ScalarType): int
    requires FloatType(t)
  {
    Shift(1, t.mantissa) - 1 - if t.nanRepr == ExtdRangeMaxMin then 1 else 0
  }

  function MaxExponent(t: ScalarType): int
    requires FloatType(t)
  {
    Shift(1, t.exponent) - 2 + if t.nanRepr == ExtdRangeMaxMin || t.nanRepr == NoNan then 1 else 0
  }

  function ExponentBias(t: ScalarType): int
    requires FloatType(t)
  {
    Shift(1, t.exponent - 1) - 1
  }

  function FloatingPointMaxInt(t: ScalarType): int
    requires FloatType(t) && FitsDouble(t)
  {
    var exponentDouble := MaxExponent(t) - ExponentBias(t) + (Shift(1, 10) - 1);
    BitOr(Shift(MaxMantissa(t), 52 - t.mantissa), Shift(exponentDouble, 52))
  }

  /** The pattern of the smallest value: the same with the sign bit set. */
  function FloatingPointMinInt(t: ScalarType): int
    requires FloatType(t) && FitsDouble(t)
  {
    BitOr(FloatingPointMaxInt(t), Shift(1, 63))
  }

  lemma {:induction false} DoublePowers()
    ensures Pow2(10) == 1024 && Pow2(11) == 2048
    ensures Pow2(63) == 2048 * Pow2(52) && Pow2(64) == 2 * Pow2(63)
  {
    assert Pow2(5) == 32;
    Pow2Adds(5, 5);
    Pow2Adds(11, 52);
  }

  /** The double's exponent field always stays in the normal range. */
  lemma {:induction false} ExponentInRange(t: ScalarType)
    requires FloatType(t) && FitsDouble(t)
    ensures 1023 <= MaxExponent(t) - ExponentBias(t) + 1023 <= 2046
  {
    hide Pow2;
    var top: nat := if t.nanRepr == Ieee754 then 10 else 9;
    DoublePowers();
    Pow2Doubles(t.exponent - 1);
    Pow2Doubles(9);
    Pow2Monotone(t.exponent - 1, top);
  }

  lemma {:induction false} Pow2Doubles(n: nat)
    ensures Pow2(n + 1) == 2 * Pow2(n)
  {
  }

  lemma {:induction false} Pow2Monotone(m: nat, n: nat)
    requires m <= n
    ensures Pow2(m) <= Pow2(n)
  {
    if m < n {
      Pow2Monotone(m, n - 1);
    }
  }

  /** Splitting a pattern into sign, exponent and fraction undoes the shifts. */
  lemma {:induction false} PatternParts(fraction: nat, exponent: nat, sign: nat)
    requires fraction < Pow2(52) && exponent < 2048 && sign < 2
    ensures var raw := fraction + Shift(exponent, 52) + Shift(sign, 63);
            && raw / Pow2(63) == sign && raw / Pow2(52) % 2048 == exponent && raw % Pow2(52) == fraction
            && 0 <= raw < Pow2(64) && (sign == 0 ==> raw < Pow2(63))
  {
    hide Pow2;
    DoublePowers();
    Parts(fraction, exponent, sign, Pow2(52));
  }

  lemma {:induction false} Parts(fraction: nat, exponent: nat, sign: nat, p: nat)
    requires fraction < p && exponent < 2048 && sign < 2
    ensures var raw := fraction + exponent * p + sign * (2048 * p);
            && raw / (2048 * p) == sign && raw / p % 2048 == exponent && raw % p == fraction
            && 0 <= raw < 2 * (2048 * p) && (sign == 0 ==> raw < 2048 * p)
  {
    var raw := fraction + exponent * p + sign * (2048 * p);
    assert raw == p * (exponent + 2048 * sign) + fraction;
    ResidueOf(raw, p, exponent + 2048 * sign, fraction);
    ResidueOf(exponent + 2048 * sign, 2048, sign, exponent);
    TopDigit(fraction, exponent, p, 2048);
    ResidueOf(raw, 2048 * p, sign, fraction + exponent * p);
  }

  /** The value a type's largest float is meant to have. */
  function MaxValue(t: ScalarType): real
    requires FloatType(t)
  {
    Normal(MaxExponent(t) - ExponentBias(t), Fraction(MaxMantissa(t), Pow2(t.mantissa)))
  }

  /** The one family whose pattern breaks: no mantissa bits, and a mantissa pattern taken for NaN. */
  predicate NoMantissaToSpare(t: ScalarType) {
    t.mantissa == 0 && t.nanRepr == ExtdRangeMaxMin
  }

  lemma {:induction false} FractionFits(t: ScalarType)
    requires FloatType(t) && FitsDouble(t) && !NoMantissaToSpare(t)
    ensures 0 <= MaxMantissa(t) && 0 <= Shift(MaxMantissa(t), 52 - t.mantissa) < Pow2(52)
    ensures Fraction(Shift(MaxMantissa(t), 52 - t.mantissa), Pow2(52)) == Fraction(MaxMantissa(t), Pow2(t.mantissa))
  {
    hide Pow2, MaxMantissa;
    var (m, top) := (t.mantissa, MaxMantissa(t));
    MantissaInRange(t);
    Pow2Adds(m, 52 - m);
    FractionCancels(top, Pow2(52 - m), Pow2(m));
  }

  lemma {:induction false} MantissaInRange(t: ScalarType)
    requires FloatType(t) && !NoMantissaToSpare(t)
    ensures 0 <= MaxMantissa(t) < Pow2(t.mantissa)
  {
  }

  lemma {:induction false} FractionCancels(a: int, p: nat, q: nat)
    requires p > 0 && 0 <= a < q
    ensures 0 <= a * p < q * p
    ensures (a * p) as real / (q * p) as real == a as real / q as real
  {
    NonNegativeIntProduct(q - 1 - a, p);
    NonNegativeIntProduct(a, p);
    assert a * p + (q - 1 - a) * p + p == q * p;
    var (ra, rp, rq) := (a as real, p as real, q as real);
    assert (a * p) as real == ra * rp && (q * p) as real == rq * rp;
    CancelReal(ra, rp, rq);
  }

  lemma {:induction false} CancelReal(a: real, p: real, q: real)
    requires p > 0.0 && q > 0.0
    ensures q * p > 0.0 && a * p / (q * p) == a / q
  {
    assert q * p > 0.0;
    var x := a / q;
    assert x * q == a;
    assert x * (q * p) == a * p;
  }

  /** The bit pattern of `max` decodes to the intended value, and that of `min` to its negation. */
  lemma {:induction false} FloatMaxDecodes(t: ScalarType)
    requires FloatType(t) && FitsDouble(t) && !NoMantissaToSpare(t)
    ensures Decode64(FloatingPointMaxInt(t)) == Some(MaxValue(t))
    ensures Decode64(FloatingPointMinInt(t)) == Some(-MaxValue(t))
  {
    hide Pow2, BitOr, MaxMantissa, MaxExponent, ExponentBias, Normal, FloatingPointMaxInt, Shift, Decode64;
    FractionFits(t);
    ExponentInRange(t);
    MaxPattern(t);
    DecodePattern(Shift(MaxMantissa(t), 52 - t.mantissa), MaxExponent(t) - ExponentBias(t) + 1023,
                  FloatingPointMaxInt(t));
  }

  /** A pattern below the sign bit decodes to its normal value, and with the sign bit set to the negation. */
  lemma {:induction false} DecodePattern(fraction: nat, exponent: nat, raw: int)
    requires fraction < Pow2(52) && 0 < exponent < 2047 && raw == fraction + Shift(exponent, 52)
    ensures var v := Normal(exponent - 1023, Fraction(fraction, Pow2(52)));
            Decode64(raw) == Some(v) && Decode64(BitOr(raw, Shift(1, 63))) == Some(-v)
  {
    hide Pow2, BitOr, Normal;
    PatternParts(fraction, exponent, 0);
    PatternParts(fraction, exponent, 1);
    assert Shift(0, 63) == 0;
    OrAbove(raw, 1, 63);
  }

  /** The or of mantissa and exponent is their sum. */
  lemma {:induction false} MaxPattern(t: ScalarType)
    requires FloatType(t) && FitsDouble(t) && !NoMantissaToSpare(t)
    ensures MaxExponent(t) - ExponentBias(t) + 1023 >= 0
    ensures FloatingPointMaxInt(t)
            == Shift(MaxMantissa(t), 52 - t.mantissa) + Shift(MaxExponent(t) - ExponentBias(t) + 1023, 52)
  {
    hide Pow2, BitOr, MaxMantissa, MaxExponent, ExponentBias;
    FractionFits(t);
    ExponentInRange(t);
    DoublePowers();
    assert Shift(1, 10) == 1024;
    OrAbove(Shift(MaxMantissa(t), 52 - t.mantissa), MaxExponent(t) - ExponentBias(t) + 1023, 52);
  }

  lemma {:induction false} OrNegative(a: int, b: int)
    requires a < 0
    ensures BitOr(a, b) < 0
    decreases -a
  {
    if a < -1 {
      OrNegative(a / 2, b / 2);
    }
  }

  /** The pattern is a 64-bit pattern with the intended value exactly when the type is not of the broken family;
      there it is negative and cannot be packed. */
  lemma {:induction false} FloatMaxIff(t: ScalarType)
    requires FloatType(t) && FitsDouble(t)
    ensures Decode64(FloatingPointMaxInt(t)) == Some(MaxValue(t)) <==> !NoMantissaToSpare(t)
    ensures NoMantissaToSpare(t) ==> FloatingPointMaxInt(t) < 0
  {
    hide Pow2, BitOr, MaxExponent, ExponentBias, FitsDouble, Normal, Decode64, FloatingPointMaxInt;
    if NoMantissaToSpare(t) {
      BrokenPattern(t);
      NegativeIsNoPattern(FloatingPointMaxInt(t));
    } else {
      FloatMaxDecodes(t);
    }
  }

  lemma {:induction false} NegativeIsNoPattern(raw: int)
    requires raw < 0
    ensures Decode64(raw) == None
  {
  }

  lemma {:induction false} BrokenPattern(t: ScalarType)
    requires FloatType(t) && FitsDouble(t) && NoMantissaToSpare(t)
    ensures FloatingPointMaxInt(t) < 0
  {
    hide MaxMantissa, MaxExponent, ExponentBias, Pow2, BitOr, Shift;
    MissingMantissa(t);
    OrNegative(Shift(MaxMantissa(t), 52 - t.mantissa),
               Shift(MaxExponent(t) - ExponentBias(t) + (Shift(1, 10) - 1), 52));
  }

  lemma {:induction false} MissingMantissa(t: ScalarType)
    requires FloatType(t) && NoMantissaToSpare(t)
    ensures MaxMantissa(t) == -1 && Shift(MaxMantissa(t), 52 - t.mantissa) < 0
  {
    assert MaxMantissa(t) == -1;
  }

  /** The repository's own `float8_e8m0fnu` is in that family. */
  lemma {:induction false} E8M0HasNoMax(t: ScalarType)
    requires t == ScalarType(8, 0, false, 0, true, ExtdRangeMaxMin)
    ensures FloatType(t) && FitsDouble(t) && FloatingPointMaxInt(t) < 0
  {
    FloatMaxIff(t);
  }

  // ----- the reference: every pattern of the type has its own value

  function Subnormal(exponent: int, fraction: real): real {
    Pow2Real(exponent) * fraction
  }

  /** The value of the nonnegative pattern with these exponent and mantissa fields, under the standard bias; exponent
      field 0 holds the subnormal numbers. */
  function PatternValue(t: ScalarType, e: nat, m: nat): real
    requires FloatType(t)
  {
    var (bias, fraction) := (Pow2(t.exponent - 1) - 1, Fraction(m, Pow2(t.mantissa)));
    if e == 0 then Subnormal(1 - bias, fraction) else Normal(e - bias, fraction)
  }

  /** Which patterns are numbers: IEEE 754 reserves the whole top exponent for infinities and NaNs, the extended
      range only its all-ones pattern, and a type without NaNs nothing. */
  predicate FinitePattern(t: ScalarType, e: nat, m: nat)
    requires FloatType(t)
  {
    && e < Pow2(t.exponent) && m < Pow2(t.mantissa)
    && match t.nanRepr
       case Ieee754 => e != Pow2(t.exponent) - 1
       case ExtdRangeMaxMin => e != Pow2(t.exponent) - 1 || m != Pow2(t.mantissa) - 1
       case NoNan => true
  }

  /** v is the largest number among the type's patterns. */
  ghost predicate LargestFinite(t: ScalarType, v: real)
    requires FloatType(t)
  {
    && (exists e: nat, m: nat :: FinitePattern(t, e, m) && PatternValue(t, e, m) == v)
    && (forall e: nat, m: nat :: FinitePattern(t, e, m) ==> PatternValue(t, e, m) <= v)
  }

  /** The other family: one exponent bit under IEEE rules leaves only subnormal numbers. */
  predicate OnlySubnormals(t: ScalarType) {
    t.exponent == 1 && t.nanRepr == Ieee754
  }

  lemma {:induction false} Pow2RealDoubles(k: int)
    ensures Pow2Real(k + 1) == 2.0 * Pow2Real(k)
  {
    if k < 0 {
      var (p, q) := (Pow2(-k - 1) as real, Pow2(-k) as real);
      assert q == 2.0 * p;
      assert 1.0 / p == 2.0 * (1.0 / (2.0 * p));
    }
  }

  lemma {:induction false} Pow2RealMonotone(j: int, k: int)
    requires j <= k
    ensures Pow2Real(j) <= Pow2Real(k)
    decreases k - j
  {
    hide Pow2Real;
    if j < k {
      Pow2RealMonotone(j, k - 1);
      Pow2RealDoubles(k - 1);
    }
  }

  /** `max` gives the largest finite number of the type, and `min` its negation, unless the type has no mantissa to
      spare for its NaN or holds only subnormal numbers; for those two families it does not. */
  lemma {:induction false} MaxIsLargestFiniteIff(t: ScalarType)
    requires FloatType(t) && FitsDouble(t)
    ensures (exists v :: Decode64(FloatingPointMaxInt(t)) == Some(v) && Decode64(FloatingPointMinInt(t)) == Some(-v)
                         && LargestFinite(t, v))
            <==> !NoMantissaToSpare(t) && !OnlySubnormals(t)
  {
    hide Decode64, FloatingPointMaxInt, FloatingPointMinInt, MaxValue, LargestFinite;
    FloatMaxIff(t);
    if NoMantissaToSpare(t) {
      NegativeIsNoPattern(FloatingPointMaxInt(t));
    } else {
      FloatMaxDecodes(t);
      if OnlySubnormals(t) {
        SubnormalsMiss(t);
      } else {
        MaxValueIsLargest(t);
      }
    }
  }

  lemma {:induction false} MaxValueIsLargest(t: ScalarType)
    requires FloatType(t) && !NoMantissaToSpare(t) && !OnlySubnormals(t)
    ensures LargestFinite(t, MaxValue(t))
  {
    hide PatternValue, MaxValue;
    MantissaInRange(t);
    TopExponent(t);
    MaxIsPattern(t);
    assert FinitePattern(t, MaxExponent(t), MaxMantissa(t));
    forall e: nat, m: nat | FinitePattern(t, e, m) ensures PatternValue(t, e, m) <= MaxValue(t) {
      PatternAtMost(t, e, m);
    }
  }

  lemma {:induction false} TopExponent(t: ScalarType)
    requires FloatType(t) && !OnlySubnormals(t)
    ensures 1 <= MaxExponent(t) < Pow2(t.exponent)
  {
    if t.exponent > 1 {
      Pow2Doubles(t.exponent - 1);
    }
  }

  lemma {:induction false} MaxIsPattern(t: ScalarType)
    requires FloatType(t) && !NoMantissaToSpare(t) && !OnlySubnormals(t)
    ensures MaxExponent(t) >= 1 && MaxMantissa(t) >= 0
    ensures PatternValue(t, MaxExponent(t), MaxMantissa(t)) == MaxValue(t)
  {
    MantissaInRange(t);
    TopExponent(t);
    assert ExponentBias(t) == Pow2(t.exponent - 1) - 1;
    hide MaxExponent, MaxMantissa, ExponentBias, Normal, Fraction, Pow2;
  }

  /** A finite pattern has a smaller exponent than that of `max`, or the same and no larger mantissa. */
  lemma {:induction false} FiniteIsBelow(t: ScalarType, e: nat, m: nat)
    requires FloatType(t) && FinitePattern(t, e, m)
    ensures m < Pow2(t.mantissa)
    ensures e < MaxExponent(t) || (e == MaxExponent(t) && m <= MaxMantissa(t))
  {
  }

  lemma {:induction false} PatternAtMost(t: ScalarType, e: nat, m: nat)
    requires FloatType(t) && !NoMantissaToSpare(t) && !OnlySubnormals(t) && FinitePattern(t, e, m)
    ensures PatternValue(t, e, m) <= MaxValue(t)
  {
    MantissaInRange(t);
    TopExponent(t);
    FiniteIsBelow(t, e, m);
    assert ExponentBias(t) == Pow2(t.exponent - 1) - 1;
    hide Pow2, FinitePattern, MaxExponent, MaxMantissa, ExponentBias, Fraction, Normal, Subnormal;
    var (bias, top, p) := (ExponentBias(t), MaxExponent(t), Pow2(t.mantissa));
    FractionsCompare(m, MaxMantissa(t), p);
    if e == top {
      NormalRaises(top - bias, Fraction(m, p), Fraction(MaxMantissa(t), p));
    } else if e == 0 {
      SubnormalIsSmaller(1 - bias, top - bias, Fraction(m, p), Fraction(MaxMantissa(t), p));
    } else {
      NormalIsSmaller(e - bias, top - bias, Fraction(m, p), Fraction(MaxMantissa(t), p));
    }
  }

  lemma {:induction false} FractionsCompare(a: nat, b: int, p: nat)
    requires p > 0 && a < p && 0 <= b
    ensures 0.0 <= Fraction(a, p) < 1.0 && 0.0 <= Fraction(b, p)
    ensures a <= b ==> Fraction(a, p) <= Fraction(b, p)
  {
  }

  lemma {:induction false} NormalRaises(k: int, x: real, y: real)
    requires x <= y
    ensures Normal(k, x) <= Normal(k, y)
  {
    hide Pow2Real;
    NonNegativeProduct(Pow2Real(k), y - x);
  }

  lemma {:induction false} SubnormalIsSmaller(j: int, k: int, x: real, y: real)
    requires j <= k && 0.0 <= x < 1.0 && 0.0 <= y
    ensures Subnormal(j, x) <= Normal(k, y)
  {
    hide Pow2Real;
    Pow2RealMonotone(j, k);
    NonNegativeProduct(Pow2Real(j), 1.0 - x);
    NonNegativeProduct(Pow2Real(k), y);
  }

  lemma {:induction false} NormalIsSmaller(j: int, k: int, x: real, y: real)
    requires j < k && 0.0 <= x < 1.0 && 0.0 <= y
    ensures Normal(j, x) <= Normal(k, y)
  {
    hide Pow2Real;
    Pow2RealDoubles(j);
    Pow2RealMonotone(j + 1, k);
    NonNegativeProduct(Pow2Real(j), 1.0 - x);
    NonNegativeProduct(Pow2Real(k), y);
  }

  /** With subnormal numbers only, the value of the pattern is an odd multiple of the spacing's half. */
  lemma {:induction false} SubnormalsMiss(t: ScalarType)
    requires FloatType(t) && !NoMantissaToSpare(t) && OnlySubnormals(t)
    ensures !LargestFinite(t, MaxValue(t))
  {
    hide Normal;
    if LargestFinite(t, MaxValue(t)) {
      var e: nat, m: nat :| FinitePattern(t, e, m) && PatternValue(t, e, m) == MaxValue(t);
      OneExponentBit(t, e, m);
    }
  }

  lemma {:induction false} OneExponentBit(t: ScalarType, e: nat, m: nat)
    requires FloatType(t) && OnlySubnormals(t) && FinitePattern(t, e, m)
    ensures PatternValue(t, e, m) != MaxValue(t)
  {
    var p := Pow2(t.mantissa);
    assert Pow2(1) == 2 && Pow2(0) == 1;
    assert e == 0 && Pow2Real(1) == 2.0 && Pow2Real(0) == 1.0;
    assert PatternValue(t, e, m) == 2.0 * Fraction(m, p);
    assert MaxValue(t) == 1.0 + Fraction(p - 1, p);
    Odd(m, p);
  }

  lemma {:induction false} Odd(m: nat, p: nat)
    requires p > 0
    ensures 2.0 * Fraction(m, p) != 1.0 + Fraction(p - 1, p)
  {
    var (x, y, rp) := (Fraction(m, p), Fraction(p - 1, p), p as real);
    assert x * rp == m as real && y * rp == (p - 1) as real;
    assert 2.0 * x == 1.0 + y ==> 2.0 * (x * rp) == rp + y * rp;
    assert 2.0 * (x * rp) == rp + y * rp ==> 2 * m == 2 * p - 1;
  }
}
