/** Quest chunk selection: an upper bound per chunk of keys, top-k over chunks, expansion back to tokens. */
module Quest {
  import opened LinearAlgebra
  import opened Ranking
  import opened Arithmetic

  ghost predicate Keys(keys: seq<Vec>, d: nat) {
    forall t :: 0 <= t < |keys| ==> |keys[t]| == d
  }

  // ----- sign folding and padding

  function Sign(x: real): real {
    if x > 0.0 then 1.0 else -1.0
  }

  /** Elementwise product with the signs of the query. */
  function Fold(q: Vec, x: Vec): (r: Vec)
    requires |q| == |x|
    ensures |r| == |x|
  {
    seq(|x|, i requires 0 <= i < |x| => x[i] * Sign(q[i]))
  }

  function FoldAll(q: Vec, keys: seq<Vec>): (r: seq<Vec>)
    requires Keys(keys, |q|)
    ensures |r| == |keys| && Keys(r, |q|)
  {
    seq(|keys|, t requires 0 <= t < |keys| => Fold(q, keys[t]))
  }

  /** Padding rows up to a whole number of chunks; none when the length already is one. */
  function PaddingLength(n: nat, c: nat): nat
    requires c > 0
  {
    if n % c == 0 then 0 else c - n % c
  }

  function Padded(rows: seq<Vec>, d: nat, c: nat, lowest: real): (r: seq<Vec>)
    requires c > 0 && Keys(rows, d)
    ensures Keys(r, d) && |r| == |rows| + PaddingLength(|rows|, c)
  {
    rows + seq(PaddingLength(|rows|, c), _ => seq(d, _ => lowest))
  }

  function Chunks(n: nat, c: nat): nat
    requires c > 0
  {
    (n + PaddingLength(n, c)) / c
  }

  lemma {:induction false} ChunkCount(n: nat, c: nat)
    requires c > 0
    ensures n + PaddingLength(n, c) == Chunks(n, c) * c
    ensures n > 0 ==> (Chunks(n, c) - 1) * c < n <= Chunks(n, c) * c
  {
    var p := n + PaddingLength(n, c);
    assert n == c * (n / c) + n % c;
    if n % c == 0 {
      Multiples(n / c, c);
    } else {
      assert p == (n / c + 1) * c;
      Multiples(n / c + 1, c);
    }
  }

  lemma {:induction false} Multiples(m: nat, c: nat)
    requires c > 0
    ensures m * c / c == m
  {
    var (p, r) := (m * c / c, m * c % c);
    assert m * c == c * p + r;
    SameMultiple(m, p, c, r);
  }

  lemma {:induction false} Quotient(t: nat, c: nat, b: nat)
    requires c > 0
    ensures t / c == b <==> b * c <= t < b * c + c
  {
    assert t == c * (t / c) + t % c;
    if b * c <= t < b * c + c {
      SameMultiple(b, t / c, c, t % c - (t - b * c));
    }
  }

  // ----- the chunk maximum

  function Maximum(rows: seq<Vec>, lo: nat, hi: nat, j: nat): (m: real)
    requires lo < hi <= |rows| && forall t :: lo <= t < hi ==> j < |rows[t]|
  {
    if hi == lo + 1 then rows[lo][j]
    else
      var rest := Maximum(rows, lo, hi - 1, j);
      if rows[hi - 1][j] > rest then rows[hi - 1][j] else rest
  }

  lemma {:induction false} MaximumIsMaximum(rows: seq<Vec>, lo: nat, hi: nat, j: nat)
    requires lo < hi <= |rows| && forall t :: lo <= t < hi ==> j < |rows[t]|
    ensures forall t :: lo <= t < hi ==> rows[t][j] <= Maximum(rows, lo, hi, j)
    ensures exists t :: lo <= t < hi && rows[t][j] == Maximum(rows, lo, hi, j)
  {
    if hi > lo + 1 {
      MaximumIsMaximum(rows, lo, hi - 1, j);
    } else {
      assert rows[lo][j] == Maximum(rows, lo, hi, j);
    }
  }

  function ChunkMax(rows: seq<Vec>, d: nat, c: nat, b: nat): (r: Vec)
    requires c > 0 && Keys(rows, d) && (b + 1) * c <= |rows|
    ensures |r| == d
  {
    ChunkBounds(b, c);
    seq(d, j requires 0 <= j < d => Maximum(rows, b * c, (b + 1) * c, j))
  }

  lemma {:induction false} ChunkBounds(b: nat, c: nat)
    requires c > 0
    ensures 0 <= b * c < (b + 1) * c == b * c + c
  {
  }

  /** The folded and padded rows whose chunk maxima the estimate uses. */
  function FoldedRows(q: Vec, keys: seq<Vec>, c: nat, lowest: real): (rows: seq<Vec>)
    requires c > 0 && Keys(keys, |q|)
    ensures Keys(rows, |q|) && |rows| == |keys| + PaddingLength(|keys|, c)
  {
    Padded(FoldAll(q, keys), |q|, c, lowest)
  }

  lemma {:induction false} RowsAt(q: Vec, keys: seq<Vec>, c: nat, lowest: real, t: nat)
    requires c > 0 && Keys(keys, |q|) && t < |FoldedRows(q, keys, c, lowest)|
    ensures t < |keys| ==> FoldedRows(q, keys, c, lowest)[t] == Fold(q, keys[t])
    ensures t >= |keys| ==> forall j :: 0 <= j < |q| ==> FoldedRows(q, keys, c, lowest)[t][j] == lowest
  {
  }

  /** The estimate of chunk b: the folded query against the chunk's folded maximum. */
  function Estimate(q: Vec, keys: seq<Vec>, c: nat, lowest: real, b: nat): real
    requires c > 0 && Keys(keys, |q|) && b < Chunks(|keys|, c)
  {
    ChunkCount(|keys|, c);
    ProductOrder(c, b + 1, Chunks(|keys|, c));
    Dot(Fold(q, q), ChunkMax(FoldedRows(q, keys, c, lowest), |q|, c, b))
  }

  function Estimates(q: Vec, keys: seq<Vec>, c: nat, lowest: real): (r: seq<real>)
    requires c > 0 && Keys(keys, |q|)
    ensures |r| == Chunks(|keys|, c)
  {
    seq(Chunks(|keys|, c), b requires 0 <= b < Chunks(|keys|, c) => Estimate(q, keys, c, lowest, b))
  }

  // ----- soundness of the estimate

  lemma {:induction false} FoldHead(q: Vec, x: Vec)
    requires |q| == |x| > 0
    ensures Fold(q, x)[0] == x[0] * Sign(q[0])
    ensures Fold(q, x)[1..] == Fold(q[1..], x[1..])
  {
    forall i | 0 <= i < |x| - 1 ensures Fold(q, x)[1..][i] == Fold(q[1..], x[1..])[i] {
    }
  }

  lemma {:induction false} FoldKeepsDot(q: Vec, x: Vec)
    requires |q| == |x|
    ensures Dot(Fold(q, q), Fold(q, x)) == Dot(q, x)
  {
    hide Fold;
    if q != [] {
      FoldKeepsDot(q[1..], x[1..]);
      FoldHead(q, q);
      FoldHead(q, x);
      SignsCancel(q[0], x[0], Sign(q[0]));
    }
  }

  lemma {:induction false} SignsCancel(q: real, x: real, s: real)
    requires s == 1.0 || s == -1.0
    ensures q * s * (x * s) == q * x
  {
  }

  lemma {:induction false} FoldedQueryIsNonNegative(q: Vec)
    ensures forall i :: 0 <= i < |q| ==> Fold(q, q)[i] >= 0.0
  {
  }

  lemma {:induction false} DotMonotone(a: Vec, x: Vec, y: Vec)
    requires |a| == |x| == |y|
    requires forall i :: 0 <= i < |a| ==> a[i] >= 0.0 && x[i] <= y[i]
    ensures Dot(a, x) <= Dot(a, y)
  {
    if a != [] {
      DotMonotone(a[1..], x[1..], y[1..]);
      ProductMonotone(a[0], x[0], y[0]);
    }
  }

  lemma {:induction false} ProductMonotone(a: real, x: real, y: real)
    requires a >= 0.0 && x <= y
    ensures a * x <= a * y
  {
    assert a * (y - x) >= 0.0;
  }

  lemma {:induction false} ChunkWithin(q: Vec, keys: seq<Vec>, c: nat, lowest: real, b: nat)
    requires c > 0 && Keys(keys, |q|) && b < Chunks(|keys|, c)
    ensures b * c < (b + 1) * c == b * c + c <= |FoldedRows(q, keys, c, lowest)| && b * c < |keys|
    ensures Estimate(q, keys, c, lowest, b) == Dot(Fold(q, q), ChunkMax(FoldedRows(q, keys, c, lowest), |q|, c, b))
  {
    hide ChunkMax, Dot, Fold;
    SomeTokens(|keys|, c);
    hide Chunks, PaddingLength;
    ChunkBounds(b, c);
    ChunkCount(|keys|, c);
    ProductOrder(c, b, Chunks(|keys|, c) - 1);
    ProductOrder(c, b + 1, Chunks(|keys|, c));
  }

  /** Every real token's true score is at most its chunk's estimate. */
  lemma {:induction false} EstimateDominates(q: Vec, keys: seq<Vec>, c: nat, lowest: real, t: nat)
    requires c > 0 && Keys(keys, |q|) && t < |keys|
    ensures t / c < Chunks(|keys|, c)
    ensures Dot(q, keys[t]) <= Estimate(q, keys, c, lowest, t / c)
  {
    hide Dot, Fold, ChunkMax, Estimate, Chunks, PaddingLength, FoldedRows;
    ChunkOf(t, |keys|, c);
    var (b, rows) := (t / c, FoldedRows(q, keys, c, lowest));
    ChunkWithin(q, keys, c, lowest, b);
    ChunkMaxDominates(rows, |q|, c, b, t);
    RowsAt(q, keys, c, lowest, t);
    FoldedQueryIsNonNegative(q);
    DotMonotone(Fold(q, q), Fold(q, keys[t]), ChunkMax(rows, |q|, c, b));
    FoldKeepsDot(q, keys[t]);
  }

  lemma {:induction false} ChunkMaxDominates(rows: seq<Vec>, d: nat, c: nat, b: nat, t: nat)
    requires c > 0 && Keys(rows, d) && (b + 1) * c <= |rows| && b * c <= t < (b + 1) * c
    ensures forall j :: 0 <= j < d ==> rows[t][j] <= ChunkMax(rows, d, c, b)[j]
  {
    forall j | 0 <= j < d ensures rows[t][j] <= ChunkMax(rows, d, c, b)[j] {
      MaximumIsMaximum(rows, b * c, (b + 1) * c, j);
    }
  }

  lemma {:induction false} ChunkOf(t: nat, n: nat, c: nat)
    requires c > 0 && t < n
    ensures t / c < Chunks(n, c) && t / c * c <= t < (t / c + 1) * c
  {
    hide Chunks, PaddingLength;
    var (b, m) := (t / c, Chunks(n, c));
    Quotient(t, c, b);
    ChunkBounds(b, c);
    ChunkCount(n, c);
    if m <= b {
      ProductOrder(c, m, b);
    }
  }

  /** x is the j-th coordinate of some real token of chunk b. */
  ghost predicate FromChunk(keys: seq<Vec>, d: nat, c: nat, b: nat, j: nat, x: real)
    requires Keys(keys, d) && j < d
  {
    exists t :: b * c <= t < (b + 1) * c && t < |keys| && keys[t][j] == x
  }

  /** The estimate is tight: it is the score of a vector whose every coordinate comes from some real token of the
      chunk, provided the padding value is no larger than any folded coordinate. */
  lemma {:induction false} EstimateIsAttained(q: Vec, keys: seq<Vec>, c: nat, lowest: real, b: nat)
    returns (corner: Vec)
    requires c > 0 && Keys(keys, |q|) && b < Chunks(|keys|, c)
    requires forall t, j :: 0 <= t < |keys| && 0 <= j < |q| ==> lowest <= Fold(q, keys[t])[j]
    ensures |corner| == |q| && Dot(q, corner) == Estimate(q, keys, c, lowest, b)
    ensures forall j :: 0 <= j < |q| ==> FromChunk(keys, |q|, c, b, j, corner[j])
  {
    hide Dot, Fold, ChunkMax, Estimate, Chunks, PaddingLength, FoldedRows, FromChunk;
    ChunkWithin(q, keys, c, lowest, b);
    var m := ChunkMax(FoldedRows(q, keys, c, lowest), |q|, c, b);
    corner := Fold(q, m);
    FoldTwice(q, m);
    FoldKeepsDot(q, corner);
    forall j | 0 <= j < |q| ensures FromChunk(keys, |q|, c, b, j, corner[j]) {
      MaximumIsReal(q, keys, c, lowest, b, j);
    }
  }

  /** A coordinate of the chunk maximum, folded back, is that coordinate of a real token: padding never wins alone. */
  lemma {:induction false} MaximumIsReal(q: Vec, keys: seq<Vec>, c: nat, lowest: real, b: nat, j: nat)
    requires c > 0 && Keys(keys, |q|) && b < Chunks(|keys|, c) && j < |q|
    requires forall t :: 0 <= t < |keys| ==> lowest <= Fold(q, keys[t])[j]
    ensures (b + 1) * c <= |FoldedRows(q, keys, c, lowest)|
    ensures FromChunk(keys, |q|, c, b, j, Fold(q, ChunkMax(FoldedRows(q, keys, c, lowest), |q|, c, b))[j])
  {
    hide Dot, Estimate, Chunks, PaddingLength, Maximum;
    ChunkWithin(q, keys, c, lowest, b);
    var rows := FoldedRows(q, keys, c, lowest);
    var m := ChunkMax(rows, |q|, c, b);
    MaximumIsMaximum(rows, b * c, (b + 1) * c, j);
    var t :| b * c <= t < (b + 1) * c && rows[t][j] == m[j];
    RowsAt(q, keys, c, lowest, t);
    if t >= |keys| {
      t := b * c;
      RowsAt(q, keys, c, lowest, t);
    }
    assert Fold(q, m)[j] == Fold(q, Fold(q, keys[t]))[j];
    FoldTwice(q, keys[t]);
  }

  lemma {:induction false} FoldTwice(q: Vec, x: Vec)
    requires |q| == |x|
    ensures Fold(q, Fold(q, x)) == x
  {
    forall i | 0 <= i < |x| ensures Fold(q, Fold(q, x))[i] == x[i] {
    }
  }

  // ----- choosing chunks

  /** `int(seq_length * sparsity_rate)` replaces the budget unless the rate is the default -1. */
  function TokenBudget(tokenBudget: int, rate: real, n: nat): int {
    if rate == -1.0 then tokenBudget
    else if n as real * rate >= 0.0 then (n as real * rate).Floor
    else -((-(n as real * rate)).Floor)
  }

  function ChunkBudget(tokenBudget: int, c: nat): (k: nat)
    requires c > 0
    ensures k >= 1
  {
    (if tokenBudget / c < 1 then 1 else tokenBudget / c) + if tokenBudget % c != 0 then 1 else 0
  }

  function ChosenCount(tokenBudget: int, rate: real, n: nat, c: nat): (k: nat)
    requires c > 0
    ensures k <= Chunks(n, c)
  {
    var k := ChunkBudget(TokenBudget(tokenBudget, rate, n), c);
    if k < Chunks(n, c) then k else Chunks(n, c)
  }

  /** The rate, unless it is the default -1, replaces the budget by that share of the sequence, truncated. */
  lemma {:induction false} RateSetsBudget(tokenBudget: int, rate: real, n: nat)
    ensures var (b, share) := (TokenBudget(tokenBudget, rate, n), n as real * rate);
            if rate == -1.0 then b == tokenBudget
            else if share >= 0.0 then 0 <= b && b as real <= share < (b + 1) as real
            else b <= 0 && (b - 1) as real < share <= b as real
    ensures rate >= 1.0 ==> TokenBudget(tokenBudget, rate, n) >= n
  {
    if rate >= 1.0 {
      NonNegativeProduct(n as real, rate - 1.0);
      assert n as real * rate >= n as real;
    }
  }

  /** A nonnegative budget gets the chunks to hold it and never more than one too many: exactly enough from one chunk
      on, two chunks below that, and one for a budget of zero. Negative budgets get one chunk, or two if they are no
      multiple of the chunk size. */
  lemma {:induction false} BudgetIsCovered(budget: int, c: nat)
    requires c > 0
    ensures budget >= 0 ==> budget <= ChunkBudget(budget, c) * c < budget + 2 * c
    ensures budget >= c ==> ChunkBudget(budget, c) * c < budget + c
    ensures 0 < budget < c ==> ChunkBudget(budget, c) == 2
    ensures budget <= 0 ==> ChunkBudget(budget, c) == if budget % c == 0 then 1 else 2
  {
    assert budget == c * (budget / c) + budget % c;
    if budget >= 0 {
      Distribute(budget / c, c);
      ProductOrder(c, 0, budget / c);
      Quotient(budget, c, 0);
    } else {
      ProductOrder(c, 0, budget / c);
    }
  }

  lemma {:induction false} Distribute(x: nat, c: nat)
    ensures (x + 1) * c == x * c + c && (x + 2) * c == x * c + 2 * c
  {
  }

  /** Token positions of the chosen chunks: `chunk * c + arange(c)` for each. */
  function Expand(top: seq<nat>, c: nat): seq<nat> {
    if top == [] then [] else Expand(top[..|top| - 1], c) + seq(c, j => top[|top| - 1] * c + j)
  }

  /** Scatters True at every listed position. */
  function SetTrue(mask: seq<bool>, idx: seq<nat>): (r: seq<bool>)
    requires forall i :: 0 <= i < |idx| ==> idx[i] < |mask|
    ensures |r| == |mask|
  {
    if idx == [] then mask else SetTrue(mask, idx[..|idx| - 1])[idx[|idx| - 1] := true]
  }

  /** The token mask: scatter into the padded length, then drop the padding. `order` is the index output of the
      descending top-k. */
  function QuestMask(n: nat, c: nat, order: seq<nat>, k: nat): (mask: seq<bool>)
    requires c > 0 && Permutation(order, Chunks(n, c)) && k <= |order|
    ensures |mask| == n
  {
    ExpandWithin(order[..k], c, Chunks(n, c));
    ChunkCount(n, c);
    SetTrue(seq(n + PaddingLength(n, c), _ => false), Expand(order[..k], c))[..n]
  }

  lemma {:induction false} ExpandWithin(top: seq<nat>, c: nat, m: nat)
    requires forall i :: 0 <= i < |top| ==> top[i] < m
    ensures forall i :: 0 <= i < |Expand(top, c)| ==> Expand(top, c)[i] < m * c
  {
    if top != [] {
      ExpandWithin(top[..|top| - 1], c, m);
      ProductOrder(c, top[|top| - 1] + 1, m);
      Distribute(top[|top| - 1], c);
    }
  }

  lemma {:induction false} ExpandMeans(top: seq<nat>, c: nat, t: nat)
    requires c > 0
    ensures t in Expand(top, c) <==> t / c in top
  {
    if top != [] {
      var (front, last) := (top[..|top| - 1], top[|top| - 1]);
      ExpandMeans(front, c, t);
      assert top == front + [last];
      OwnTokens(last, c, t);
    }
  }

  lemma {:induction false} OwnTokens(b: nat, c: nat, t: nat)
    requires c > 0
    ensures t in seq(c, j => b * c + j) <==> t / c == b
  {
    var own := seq(c, j => b * c + j);
    Quotient(t, c, b);
    if t / c == b {
      assert own[t - b * c] == t;
    }
  }

  lemma {:induction false} SetTrueMeans(mask: seq<bool>, idx: seq<nat>, t: nat)
    requires (forall i :: 0 <= i < |idx| ==> idx[i] < |mask|) && t < |mask|
    ensures SetTrue(mask, idx)[t] <==> mask[t] || t in idx
  {
    if idx != [] {
      SetTrueMeans(mask, idx[..|idx| - 1], t);
      assert idx == idx[..|idx| - 1] + [idx[|idx| - 1]];
    }
  }

  /** A token is selected exactly when its chunk was chosen. */
  lemma {:induction false} MaskMeans(n: nat, c: nat, order: seq<nat>, k: nat, t: nat)
    requires c > 0 && Permutation(order, Chunks(n, c)) && k <= |order| && t < n
    ensures QuestMask(n, c, order, k)[t] <==> t / c in order[..k]
  {
    ExpandWithin(order[..k], c, Chunks(n, c));
    ChunkCount(n, c);
    ExpandMeans(order[..k], c, t);
    SetTrueMeans(seq(n + PaddingLength(n, c), _ => false), Expand(order[..k], c), t);
  }

  /** A budget that holds the whole sequence, given as such or as a rate, selects every token. */
  lemma {:induction false} FullBudgetSelectsAll(n: nat, c: nat, order: seq<nat>, budget: int, rate: real, t: nat)
    requires c > 0 && Permutation(order, Chunks(n, c)) && n <= TokenBudget(budget, rate, n) && t < n
    ensures ChosenCount(budget, rate, n, c) <= |order|
    ensures QuestMask(n, c, order, ChosenCount(budget, rate, n, c))[t]
  {
    hide QuestMask, ChosenCount, Chunks, PaddingLength, TokenBudget;
    AllChunksChosen(n, c, budget, rate);
    AllChunksSelectAll(n, c, order, t);
  }

  lemma {:induction false} AllChunksSelectAll(n: nat, c: nat, order: seq<nat>, t: nat)
    requires c > 0 && Permutation(order, Chunks(n, c)) && t < n
    ensures QuestMask(n, c, order, |order|)[t]
  {
    hide QuestMask, Chunks, PaddingLength;
    ChunkOf(t, n, c);
    var r := Occurs(order, |order|, t / c);
    MaskMeans(n, c, order, |order|, t);
    assert order[..|order|] == order;
  }

  lemma {:induction false} AllChunksChosen(n: nat, c: nat, budget: int, rate: real)
    requires c > 0 && 0 < n <= TokenBudget(budget, rate, n)
    ensures ChosenCount(budget, rate, n, c) == Chunks(n, c)
  {
    hide Chunks, ChunkBudget, TokenBudget;
    var b := TokenBudget(budget, rate, n);
    BudgetIsCovered(b, c);
    ChunkCount(n, c);
    EnoughChunks(ChunkBudget(b, c), Chunks(n, c), c, n);
  }

  lemma {:induction false} EnoughChunks(k: nat, m: nat, c: nat, n: nat)
    requires c > 0 && (m - 1) * c < n <= k * c
    ensures k >= m
  {
    if k < m {
      ProductOrder(c, k, m - 1);
    }
  }

  /** Any token whose true score exceeds some chosen chunk's estimate is selected. */
  lemma {:induction false} HighScoresAreSelected(q: Vec, keys: seq<Vec>, c: nat, lowest: real, order: seq<nat>,
                                                 k: nat, t: nat, i: nat)
    requires c > 0 && Keys(keys, |q|) && SortsDescending(order, Estimates(q, keys, c, lowest))
    requires i < k <= |order| && t < |keys|
    requires Dot(q, keys[t]) > Estimates(q, keys, c, lowest)[order[i]]
    ensures QuestMask(|keys|, c, order, k)[t]
  {
    hide Dot, Estimate, QuestMask;
    EstimateDominates(q, keys, c, lowest, t);
    MaskMeans(|keys|, c, order, k, t);
    var r := Occurs(order, Chunks(|keys|, c), t / c);
    if r < k {
      assert order[..k][r] == t / c;
    }
  }

  // ----- how many tokens are selected

  function CountTrue(mask: seq<bool>): nat {
    if mask == [] then 0 else CountTrue(mask[..|mask| - 1]) + if mask[|mask| - 1] then 1 else 0
  }

  lemma {:induction false} CountRun(mask: seq<bool>, m: nat, on: bool)
    requires m <= |mask| && forall t :: m <= t < |mask| ==> mask[t] == on
    ensures CountTrue(mask) == CountTrue(mask[..m]) + if on then |mask| - m else 0
  {
    if m < |mask| {
      var front := mask[..|mask| - 1];
      CountRun(front, m, on);
      assert front[..m] == mask[..m];
    } else {
      assert mask[..m] == mask;
    }
  }

  /** Whole chunks contribute c tokens each when chosen. */
  lemma {:induction false} CountWholeChunks(mask: seq<bool>, c: nat, chosen: set<nat>, m: nat)
    requires c > 0 && m * c <= |mask| && forall t :: 0 <= t < |mask| ==> (mask[t] <==> t / c in chosen)
    ensures CountTrue(mask[..m * c]) == CountBelow(chosen, m) * c
  {
    hide CountTrue;
    if m == 0 {
      NothingCounted(mask, c);
    } else {
      ChunkBounds(m - 1, c);
      CountWholeChunks(mask, c, chosen, m - 1);
      CountOneChunk(mask, c, chosen, m - 1, m * c);
      Distribute(CountBelow(chosen, m - 1), c);
    }
  }

  lemma {:induction false} NothingCounted(mask: seq<bool>, c: nat)
    ensures 0 * c == 0 && CountTrue(mask[..0 * c]) == 0
  {
    assert mask[..0 * c] == [];
  }

  /** The tokens from the start of chunk b up to `hi`, all within the chunk, count fully or not at all. */
  lemma {:induction false} CountOneChunk(mask: seq<bool>, c: nat, chosen: set<nat>, b: nat, hi: nat)
    requires c > 0 && b * c <= hi <= b * c + c && hi <= |mask|
    requires forall t :: 0 <= t < |mask| ==> (mask[t] <==> t / c in chosen)
    ensures CountTrue(mask[..hi]) == CountTrue(mask[..b * c]) + if b in chosen then hi - b * c else 0
  {
    hide CountTrue;
    var part := mask[..hi];
    forall t | b * c <= t < hi ensures part[t] == (b in chosen) {
      Quotient(t, c, b);
    }
    CountRun(part, b * c, b in chosen);
    assert part[..b * c] == mask[..b * c];
  }

  /** With k chosen chunks of size c, between `(k - 1) * c + 1` and `k * c` real tokens are selected. */
  lemma {:induction false} SelectedCount(n: nat, c: nat, order: seq<nat>, k: nat)
    requires c > 0 && Permutation(order, Chunks(n, c)) && 0 < k <= |order|
    ensures (k - 1) * c + 1 <= CountTrue(QuestMask(n, c, order, k)) <= k * c
  {
    OrderLength(order, Chunks(n, c));
    SomeTokens(n, c);
    hide CountTrue, QuestMask, CountBelow, Chunks, PaddingLength, Permutation, ToSet;
    var m, chosen := Chunks(n, c), ToSet(order[..k]);
    ChosenBelowLast(order, k, m);
    var rest := MaskCounts(n, c, order, k);
    CountTotal(c, k, CountBelow(chosen, m - 1), m - 1 in chosen, rest, CountTrue(QuestMask(n, c, order, k)));
  }

  /** Every chosen chunk but the last of the sequence counts c tokens, that one the `rest`. */
  lemma {:induction false} MaskCounts(n: nat, c: nat, order: seq<nat>, k: nat) returns (rest: nat)
    requires c > 0 && n > 0 && Permutation(order, Chunks(n, c)) && 0 < k <= |order|
    ensures Chunks(n, c) > 0 && 1 <= rest <= c
    ensures var (m, chosen) := (Chunks(n, c), ToSet(order[..k]));
            CountTrue(QuestMask(n, c, order, k))
            == CountBelow(chosen, m - 1) * c + if m - 1 in chosen then rest else 0
  {
    hide CountTrue, QuestMask, CountBelow, Chunks, PaddingLength, Permutation, ToSet;
    var mask, m, chosen := QuestMask(n, c, order, k), Chunks(n, c), ToSet(order[..k]);
    ChunkCount(n, c);
    SomeChunks(n, c);
    ChunkBounds(m - 1, c);
    rest := n - (m - 1) * c;
    forall t | 0 <= t < n ensures mask[t] <==> t / c in chosen {
      MaskMeans(n, c, order, k, t);
      ToSetMeans(order[..k]);
    }
    CountWholeChunks(mask, c, chosen, m - 1);
    CountOneChunk(mask, c, chosen, m - 1, n);
    assert mask[..n] == mask;
  }

  /** The mask keeps to a nonnegative budget: fewer than one chunk below it or the sequence, and fewer than one above
      it, or two for a budget below one chunk. */
  lemma {:induction false} SelectedWithinBudget(n: nat, c: nat, order: seq<nat>, budget: int, rate: real)
    requires c > 0 && n > 0 && Permutation(order, Chunks(n, c)) && TokenBudget(budget, rate, n) >= 0
    ensures var (b, k) := (TokenBudget(budget, rate, n), ChosenCount(budget, rate, n, c));
            && k <= |order|
            && var count := CountTrue(QuestMask(n, c, order, k));
               && count > (if b < n then b else n) - c
               && count < b + (if b < c then 2 * c else c)
  {
    hide QuestMask, CountTrue, Chunks, PaddingLength, ChunkBudget, TokenBudget, Permutation;
    var (b, k) := (TokenBudget(budget, rate, n), ChosenCount(budget, rate, n, c));
    assert |order| == Chunks(n, c) by { OrderLength(order, Chunks(n, c)); }
    BudgetIsCovered(b, c);
    ChunkCount(n, c);
    assert k > 0 by { SomeChunks(n, c); }
    SelectedCount(n, c, order, k);
    Distribute(k - 1, c);
    ProductOrder(c, k, ChunkBudget(b, c));
  }

  lemma {:induction false} OrderLength(order: seq<nat>, m: nat)
    requires Permutation(order, m)
    ensures |order| == m
  {
  }

  lemma {:induction false} SomeChunks(n: nat, c: nat)
    requires c > 0 && n > 0
    ensures Chunks(n, c) > 0
  {
    ChunkCount(n, c);
  }

  lemma {:induction false} SomeTokens(n: nat, c: nat)
    requires c > 0 && Chunks(n, c) > 0
    ensures n > 0
  {
  }

  lemma {:induction false} ChosenBelowLast(order: seq<nat>, k: nat, m: nat)
    requires Permutation(order, m) && 0 < k <= m
    ensures var chosen := ToSet(order[..k]);
            CountBelow(chosen, m - 1) == k - if m - 1 in chosen then 1 else 0
  {
    hide CountBelow;
    ToSetMeans(order[..k]);
    CountSplit(ToSet(order[..k]), m);
  }

  lemma {:induction false} CountTotal(c: nat, k: nat, whole: nat, last: bool, rest: int, total: int)
    requires k > 0 && 1 <= rest <= c && whole == (if last then k - 1 else k)
    requires total == whole * c + if last then rest else 0
    ensures (k - 1) * c + 1 <= total <= k * c
  {
    Distribute(k - 1, c);
  }

  lemma {:induction false} CountSplit(chosen: set<nat>, m: nat)
    requires m > 0 && forall b :: b in chosen ==> b < m
    ensures CountBelow(chosen, m - 1) == |chosen| - if m - 1 in chosen then 1 else 0
  {
    CountIsCardinality(chosen, m);
  }
}
