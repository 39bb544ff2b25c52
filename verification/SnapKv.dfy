/** SnapKV prompt compression: pooled attention scores pick prefix positions, the last window is kept whole. */
module SnapKv {
  import opened Arithmetic
  import opened LinearAlgebra
  import opened Ranking
  import TopP

  datatype Pooling = AvgPool | MaxPool

  datatype Config = Config(window: nat, capacity: nat, kernel: nat, pooling: Pooling)

  /** A score before softmax. Adding the most negative number of the tensor's type absorbs a score, so all masked
      entries are alike. */
  datatype Score = Visible(value: real) | Masked

  /** The tensors' square root of the head dimension and softmax. */
  datatype Kernels = Kernels(sqrtD: real, softmax: seq<Score> -> seq<real>)

  /** Softmax shares a mass of one among the visible scores, in their order, and gives masked ones nothing. */
  ghost predicate MaskedSoftmax(x: seq<Score>, p: seq<real>) {
    && |p| == |x| && TopP.Sum(p) == 1.0
    && (forall t :: 0 <= t < |x| ==> p[t] >= 0.0 && (p[t] > 0.0 <==> x[t].Visible?))
    && forall t, u :: 0 <= t < |x| && 0 <= u < |x| && x[t].Visible? && x[u].Visible? ==>
         (x[t].value <= x[u].value <==> p[t] <= p[u])
  }

  ghost predicate ValidKernels(kern: Kernels) {
    && kern.sqrtD > 0.0
    && forall x: seq<Score> :: (exists t :: 0 <= t < |x| && x[t].Visible?) ==> MaskedSoftmax(x, kern.softmax(x))
  }

  // ----- attention of the last window over the prefix

  ghost predicate Prompt(queries: seq<Vec>, keys: seq<Vec>, d: nat) {
    |queries| == |keys| && forall t :: 0 <= t < |keys| ==> |queries[t]| == |keys[t]| == d
  }

  /** The scores of the query at position `at`: causal, and scaled by the square root of the head dimension. */
  ghost predicate CausalScores(kern: Kernels, q: Vec, keys: seq<Vec>, at: nat, x: seq<Score>)
    requires forall t :: 0 <= t < |keys| ==> |keys[t]| == |q|
  {
    && |x| == |keys|
    && (forall t :: 0 <= t < |x| ==> (x[t].Visible? <==> t <= at))
    && (forall t :: 0 <= t < |x| && t <= at ==> x[t].value * kern.sqrtD == Dot(q, keys[t]))
  }

  /** The scores of the window's query i: within the window the later keys are masked. */
  function Logits(kern: Kernels, queries: seq<Vec>, keys: seq<Vec>, d: nat, window: nat, i: nat): (r: seq<Score>)
    requires ValidKernels(kern) && Prompt(queries, keys, d) && i < window <= |keys|
    ensures |r| == |keys|
  {
    var (n, q) := (|keys|, queries[|keys| - window + i]);
    seq(n, t requires 0 <= t < n => if t - (n - window) > i then Masked else Visible(Dot(q, keys[t]) / kern.sqrtD))
  }

  lemma {:induction false} LogitsAreCausal(kern: Kernels, queries: seq<Vec>, keys: seq<Vec>, d: nat, window: nat,
                                           i: nat)
    requires ValidKernels(kern) && Prompt(queries, keys, d) && i < window <= |keys|
    ensures var at := |keys| - window + i;
            CausalScores(kern, queries[at], keys, at, Logits(kern, queries, keys, d, window, i))
  {
    hide Dot, MaskedSoftmax;
    var (at, x) := (|keys| - window + i, Logits(kern, queries, keys, d, window, i));
    forall t | 0 <= t <= at ensures x[t].value * kern.sqrtD == Dot(queries[at], keys[t]) {
      MultiplyBack(Dot(queries[at], keys[t]), kern.sqrtD);
    }
  }

  lemma {:induction false} MultiplyBack(x: real, s: real)
    requires s != 0.0
    ensures x / s * s == x
  {
  }

  /** The weights of the window's query i over all keys. */
  function Weights(kern: Kernels, queries: seq<Vec>, keys: seq<Vec>, d: nat, window: nat, i: nat): (p: seq<real>)
    requires ValidKernels(kern) && Prompt(queries, keys, d) && i < window <= |keys|
    ensures |p| == |keys|
  {
    var x := Logits(kern, queries, keys, d, window, i);
    assert x[0].Visible?;
    assert MaskedSoftmax(x, kern.softmax(x));
    kern.softmax(x)
  }

  /** The weights p go exactly to the keys up to position `at`, add up to one, and follow the scores of those keys. */
  ghost predicate CausalWeights(q: Vec, keys: seq<Vec>, at: nat, p: seq<real>)
    requires forall t :: 0 <= t < |keys| ==> |keys[t]| == |q|
  {
    && |p| == |keys| && TopP.Sum(p) == 1.0
    && (forall t :: 0 <= t < |keys| ==> p[t] >= 0.0 && (p[t] > 0.0 <==> t <= at))
    && forall t, u :: 0 <= t < |keys| && 0 <= u < |keys| && t <= at && u <= at ==>
         (Dot(q, keys[t]) <= Dot(q, keys[u]) <==> p[t] <= p[u])
  }

  /** A query's weights are causal. */
  lemma {:induction false} WeightsAreCausal(kern: Kernels, queries: seq<Vec>, keys: seq<Vec>, d: nat, window: nat,
                                            i: nat)
    requires ValidKernels(kern) && Prompt(queries, keys, d) && i < window <= |keys|
    ensures var at := |keys| - window + i;
            CausalWeights(queries[at], keys, at, Weights(kern, queries, keys, d, window, i))
  {
    hide Logits, CausalScores, CausalWeights, MaskedSoftmax, Dot;
    var (at, x) := (|keys| - window + i, Logits(kern, queries, keys, d, window, i));
    LogitsAreCausal(kern, queries, keys, d, window, i);
    FirstIsVisible(kern, queries[at], keys, at, x);
    WeightsFollow(kern, queries[at], keys, at, x, kern.softmax(x));
  }

  lemma {:induction false} FirstIsVisible(kern: Kernels, q: Vec, keys: seq<Vec>, at: nat, x: seq<Score>)
    requires keys != [] && (forall t :: 0 <= t < |keys| ==> |keys[t]| == |q|) && CausalScores(kern, q, keys, at, x)
    ensures |x| > 0 && x[0].Visible?
  {
  }

  lemma {:induction false} WeightsFollow(kern: Kernels, q: Vec, keys: seq<Vec>, at: nat, x: seq<Score>, p: seq<real>)
    requires forall t :: 0 <= t < |keys| ==> |keys[t]| == |q|
    requires kern.sqrtD > 0.0 && CausalScores(kern, q, keys, at, x) && MaskedSoftmax(x, p)
    ensures CausalWeights(q, keys, at, p)
  {
    hide Dot, TopP.Sum;
    forall t, u | 0 <= t < |keys| && 0 <= u < |keys| && t <= at && u <= at
      ensures Dot(q, keys[t]) <= Dot(q, keys[u]) <==> p[t] <= p[u]
    {
      ScaledOrder(x[t].value, x[u].value, kern.sqrtD, Dot(q, keys[t]), Dot(q, keys[u]));
    }
  }

  lemma {:induction false} ScaledOrder(x: real, y: real, s: real, xs: real, ys: real)
    requires s > 0.0 && xs == x * s && ys == y * s
    ensures x <= y <==> xs <= ys
  {
    if x <= y {
      NonNegativeProduct(y - x, s);
    } else {
      ProductPositive(x - y, s, (x - y) * s);
    }
  }

  /** Nothing after a query's own position matters to it: two prompts of one length that agree on the query and on
      the keys up to there give it the same weights. */
  lemma {:induction false} LaterKeysDoNotMatter(kern: Kernels, queries: seq<Vec>, keys: seq<Vec>, queries': seq<Vec>,
                                                keys': seq<Vec>, d: nat, window: nat, i: nat)
    requires ValidKernels(kern) && Prompt(queries, keys, d) && Prompt(queries', keys', d)
    requires i < window <= |keys| == |keys'|
    requires var at := |keys| - window + i;
             queries[at] == queries'[at] && keys[..at + 1] == keys'[..at + 1]
    ensures Weights(kern, queries, keys, d, window, i) == Weights(kern, queries', keys', d, window, i)
  {
    hide Dot, MaskedSoftmax;
    var (n, at) := (|keys|, |keys| - window + i);
    var (x, y) := (Logits(kern, queries, keys, d, window, i), Logits(kern, queries', keys', d, window, i));
    forall t | 0 <= t < n ensures x[t] == y[t] {
      assert t <= at ==> keys[t] == keys[..at + 1][t] == keys'[..at + 1][t] == keys'[t];
    }
    assert x == y;
  }

  /** What key t gets from the first m queries of the window. */
  function WindowWeight(kern: Kernels, queries: seq<Vec>, keys: seq<Vec>, d: nat, window: nat, t: nat, m: nat): real
    requires ValidKernels(kern) && Prompt(queries, keys, d) && m <= window <= |keys| && t < |keys|
  {
    if m == 0 then 0.0
    else
      WindowWeight(kern, queries, keys, d, window, t, m - 1) + Weights(kern, queries, keys, d, window, m - 1)[t]
  }

  function PrefixScores(kern: Kernels, queries: seq<Vec>, keys: seq<Vec>, d: nat, window: nat): (s: seq<real>)
    requires ValidKernels(kern) && Prompt(queries, keys, d) && window <= |keys|
    ensures |s| == |keys| - window
  {
    var n := |keys| - window;
    seq(n, t requires 0 <= t < n => WindowWeight(kern, queries, keys, d, window, t, window))
  }

  lemma {:induction false} WeightIsPositive(kern: Kernels, queries: seq<Vec>, keys: seq<Vec>, d: nat, window: nat,
                                            t: nat, m: nat)
    requires ValidKernels(kern) && Prompt(queries, keys, d) && m <= window <= |keys| && t < |keys| - window
    ensures WindowWeight(kern, queries, keys, d, window, t, m) >= 0.0
    ensures m > 0 ==> WindowWeight(kern, queries, keys, d, window, t, m) > 0.0
  {
    hide Weights, ValidKernels, Dot, Prompt;
    if m > 0 {
      WeightIsPositive(kern, queries, keys, d, window, t, m - 1);
      PrefixWeight(kern, queries, keys, d, window, m - 1, t, t);
    }
  }

  lemma {:induction false} ScoresArePositive(kern: Kernels, queries: seq<Vec>, keys: seq<Vec>, d: nat, window: nat)
    requires ValidKernels(kern) && Prompt(queries, keys, d) && 0 < window <= |keys|
    ensures TopP.Positive(PrefixScores(kern, queries, keys, d, window))
  {
    hide ValidKernels;
    forall t | 0 <= t < |keys| - window ensures PrefixScores(kern, queries, keys, d, window)[t] > 0.0 {
      WeightIsPositive(kern, queries, keys, d, window, t, window);
    }
  }

  /** The window's query i scores key t at least as high as key u. */
  ghost predicate Prefers(queries: seq<Vec>, keys: seq<Vec>, d: nat, window: nat, i: nat, t: nat, u: nat)
    requires Prompt(queries, keys, d) && i < window <= |keys| && t < |keys| && u < |keys|
  {
    var q := queries[|keys| - window + i];
    Dot(q, keys[t]) >= Dot(q, keys[u])
  }

  /** What one window query gives two prefix keys. */
  lemma {:induction false} PrefixWeight(kern: Kernels, queries: seq<Vec>, keys: seq<Vec>, d: nat, window: nat, i: nat,
                                        t: nat, u: nat)
    requires ValidKernels(kern) && Prompt(queries, keys, d) && i < window <= |keys|
    requires t < |keys| - window && u < |keys| - window
    ensures var p := Weights(kern, queries, keys, d, window, i);
            p[t] > 0.0 && (p[t] >= p[u] <==> Prefers(queries, keys, d, window, i, t, u))
  {
    hide Weights, ValidKernels, Dot, TopP.Sum;
    WeightsAreCausal(kern, queries, keys, d, window, i);
    assert t <= |keys| - window + i && u <= |keys| - window + i;
  }

  /** A prefix key that every window query scores at least as high as another gets at least as much attention, and
      strictly more if one of the first m queries does not score the other as high. */
  lemma {:induction false} WeightFollowsQueries(kern: Kernels, queries: seq<Vec>, keys: seq<Vec>, d: nat, window: nat,
                                                t: nat, u: nat, m: nat)
    requires ValidKernels(kern) && Prompt(queries, keys, d) && m <= window <= |keys|
    requires t < |keys| - window && u < |keys| - window
    requires forall i :: 0 <= i < window ==> Prefers(queries, keys, d, window, i, t, u)
    ensures WindowWeight(kern, queries, keys, d, window, t, m) >= WindowWeight(kern, queries, keys, d, window, u, m)
    ensures (exists i :: 0 <= i < m && !Prefers(queries, keys, d, window, i, u, t)) ==>
              WindowWeight(kern, queries, keys, d, window, t, m) > WindowWeight(kern, queries, keys, d, window, u, m)
  {
    hide Prefers, Weights, ValidKernels, Prompt;
    if m > 0 {
      WeightFollowsQueries(kern, queries, keys, d, window, t, u, m - 1);
      PrefixWeight(kern, queries, keys, d, window, m - 1, t, u);
      PrefixWeight(kern, queries, keys, d, window, m - 1, u, t);
    }
  }

  /** Each window query hands out a mass of one, none of it to later keys. */
  lemma {:induction false} WindowMass(kern: Kernels, queries: seq<Vec>, keys: seq<Vec>, d: nat, window: nat, m: nat)
    requires ValidKernels(kern) && Prompt(queries, keys, d) && m <= window <= |keys|
    ensures TopP.Sum(AllWeights(kern, queries, keys, d, window, m)) == m as real
  {
    hide Weights, ValidKernels, TopP.Sum;
    if m > 0 {
      WindowMass(kern, queries, keys, d, window, m - 1);
      WeightsAreCausal(kern, queries, keys, d, window, m - 1);
      SumOfSums(AllWeights(kern, queries, keys, d, window, m - 1), Weights(kern, queries, keys, d, window, m - 1),
                AllWeights(kern, queries, keys, d, window, m));
    } else {
      SumOfZeros(AllWeights(kern, queries, keys, d, window, 0));
    }
  }

  function AllWeights(kern: Kernels, queries: seq<Vec>, keys: seq<Vec>, d: nat, window: nat, m: nat): (s: seq<real>)
    requires ValidKernels(kern) && Prompt(queries, keys, d) && m <= window <= |keys|
    ensures |s| == |keys|
  {
    seq(|keys|, t requires 0 <= t < |keys| => WindowWeight(kern, queries, keys, d, window, t, m))
  }

  lemma {:induction false} SumOfSums(a: seq<real>, b: seq<real>, c: seq<real>)
    requires |a| == |b| == |c| && forall t :: 0 <= t < |a| ==> c[t] == a[t] + b[t]
    ensures TopP.Sum(c) == TopP.Sum(a) + TopP.Sum(b)
  {
    if a != [] {
      SumOfSums(a[..|a| - 1], b[..|b| - 1], c[..|c| - 1]);
    }
  }

  lemma {:induction false} SumOfZeros(a: seq<real>)
    requires forall t :: 0 <= t < |a| ==> a[t] == 0.0
    ensures TopP.Sum(a) == 0.0
  {
    if a != [] {
      SumOfZeros(a[..|a| - 1]);
    }
  }

  // ----- pooling over the prefix scores

  /** Positions a pooling window covers: stride 1, half a kernel of padding on both sides. */
  function PooledLength(n: nat, kernel: nat): int {
    n + 2 * (kernel / 2) - kernel + 1
  }

  /** The score at a padded position; outside the input the average sees zeros. */
  function At(s: seq<real>, i: int): real {
    if 0 <= i < |s| then s[i] else 0.0
  }

  function WindowSum(s: seq<real>, start: int, len: nat): real {
    if len == 0 then 0.0 else WindowSum(s, start, len - 1) + At(s, start + len - 1)
  }

  /** The maximum ignores the padding. */
  function WindowMax(s: seq<real>, lo: nat, hi: nat): real
    requires lo < hi <= |s|
  {
    if hi == lo + 1 then s[lo]
    else
      var rest := WindowMax(s, lo, hi - 1);
      if s[hi - 1] > rest then s[hi - 1] else rest
  }

  function PooledAt(s: seq<real>, kernel: nat, pooling: Pooling, i: nat): real
    requires kernel > 0 && s != [] && i < PooledLength(|s|, kernel)
  {
    var start := i - kernel / 2;
    if pooling == AvgPool then WindowSum(s, start, kernel) / kernel as real
    else WindowMax(s, if start < 0 then 0 else start, if start + kernel > |s| then |s| else start + kernel)
  }

  function Pooled(s: seq<real>, kernel: nat, pooling: Pooling): (r: seq<real>)
    requires kernel > 0 && (s != [] || kernel % 2 == 1)
    ensures |r| == PooledLength(|s|, kernel)
  {
    seq(PooledLength(|s|, kernel), i requires 0 <= i < PooledLength(|s|, kernel) => PooledAt(s, kernel, pooling, i))
  }

  /** Pooling has one score per prefix position exactly for odd kernels; an even one adds a position that does not
      exist. */
  lemma {:induction false} PoolingKeepsLengthIff(n: nat, kernel: nat)
    requires kernel > 0
    ensures PooledLength(n, kernel) == n <==> kernel % 2 == 1
    ensures kernel % 2 == 0 ==> PooledLength(n, kernel) == n + 1
  {
  }

  /** The position nearest to i in `[0, n]`. */
  function Clip(i: int, n: nat): (r: nat)
    ensures r <= n
  {
    if i < 0 then 0 else if i > n then n else i
  }

  /** Max pooling with an odd kernel takes the largest of the scores at most half a kernel away. */
  lemma {:induction false} MaxPoolMeans(s: seq<real>, kernel: nat, i: nat)
    requires kernel % 2 == 1 && i < |s|
    ensures i < PooledLength(|s|, kernel)
    ensures var (lo, hi) := (Clip(i - kernel / 2, |s|), Clip(i + kernel / 2 + 1, |s|));
            && (forall j :: lo <= j < hi ==> s[j] <= PooledAt(s, kernel, MaxPool, i))
            && (exists j :: lo <= j < hi && s[j] == PooledAt(s, kernel, MaxPool, i))
  {
    hide WindowMax;
    PoolingKeepsLengthIff(|s|, kernel);
    var (lo, hi) := (Clip(i - kernel / 2, |s|), Clip(i + kernel / 2 + 1, |s|));
    assert PooledAt(s, kernel, MaxPool, i) == WindowMax(s, lo, hi);
    hide PooledAt;
    WindowMaxMeans(s, lo, hi);
  }

  /** Average pooling with an odd kernel adds up the scores at most half a kernel away and divides by the kernel, as
      if missing ones were zero. */
  lemma {:induction false} AvgPoolMeans(s: seq<real>, kernel: nat, i: nat)
    requires kernel % 2 == 1 && i < |s|
    ensures i < PooledLength(|s|, kernel)
    ensures PooledAt(s, kernel, AvgPool, i) * kernel as real
            == TopP.Sum(s[Clip(i - kernel / 2, |s|)..Clip(i + kernel / 2 + 1, |s|)])
  {
    hide PooledAt, WindowSum, TopP.Sum;
    PoolingKeepsLengthIff(|s|, kernel);
    var start := i - kernel / 2;
    AverageOf(s, kernel, i);
    MultiplyBack(WindowSum(s, start, kernel), kernel as real);
    WindowSumMeans(s, start, kernel);
  }

  lemma {:induction false} WindowMaxMeans(s: seq<real>, lo: nat, hi: nat)
    requires lo < hi <= |s|
    ensures forall j :: lo <= j < hi ==> s[j] <= WindowMax(s, lo, hi)
    ensures exists j :: lo <= j < hi && s[j] == WindowMax(s, lo, hi)
  {
    if hi > lo + 1 {
      WindowMaxMeans(s, lo, hi - 1);
    } else {
      assert s[lo] == WindowMax(s, lo, hi);
    }
  }

  lemma {:induction false} WindowSumMeans(s: seq<real>, start: int, len: nat)
    ensures Clip(start, |s|) <= Clip(start + len, |s|)
    ensures WindowSum(s, start, len) == TopP.Sum(s[Clip(start, |s|)..Clip(start + len, |s|)])
  {
    hide TopP.Sum;
    if len > 0 {
      WindowSumMeans(s, start, len - 1);
      OneMoreScore(s, Clip(start, |s|), start + len - 1);
    } else {
      OneMoreScore(s, Clip(start, |s|), -1);
    }
  }

  /** Moving the clipped end past position i adds the score there, or nothing. */
  lemma {:induction false} OneMoreScore(s: seq<real>, lo: nat, i: int)
    requires lo <= |s|
    ensures TopP.Sum(s[lo..lo]) == 0.0
    ensures lo <= Clip(i, |s|) ==> TopP.Sum(s[lo..Clip(i + 1, |s|)]) == TopP.Sum(s[lo..Clip(i, |s|)]) + At(s, i)
  {
    if lo <= i < |s| {
      SliceFront(s, lo, i);
      var slice := s[lo..i + 1];
      assert slice[..|slice| - 1] == s[lo..i];
    }
  }

  lemma {:induction false} SliceFront(s: seq<real>, lo: nat, i: nat)
    requires lo <= i < |s|
    ensures |s[lo..i + 1]| == i - lo + 1
    ensures s[lo..i + 1][..i - lo] == s[lo..i] && s[lo..i + 1][i - lo] == s[i]
  {
    var (long, short) := (s[lo..i + 1], s[lo..i]);
    forall j | 0 <= j < i - lo ensures long[..i - lo][j] == short[j] {
    }
  }

  // ----- compression

  /** The positions kept: the best prefix positions by pooled score, then the last window. */
  function Kept(n: nat, order: seq<nat>, window: nat, capacity: nat): (pos: seq<nat>)
    requires window <= capacity <= n && capacity - window <= |order|
    ensures |pos| == capacity
  {
    order[..capacity - window] + seq(window, i => n - window + i)
  }

  /** The pooled scores of the prefix. */
  function PooledScores(kern: Kernels, cfg: Config, queries: seq<Vec>, keys: seq<Vec>, d: nat): (p: seq<real>)
    requires ValidKernels(kern) && Prompt(queries, keys, d) && cfg.window <= |keys| && cfg.kernel % 2 == 1
    ensures |p| == |keys| - cfg.window
  {
    PoolingKeepsLengthIff(|keys| - cfg.window, cfg.kernel);
    Pooled(PrefixScores(kern, queries, keys, d, cfg.window), cfg.kernel, cfg.pooling)
  }

  /** `order` is the index output of the top-k over the pooled prefix scores. Short prompts are left alone. */
  function Compress<V>(kern: Kernels, cfg: Config, queries: seq<Vec>, keys: seq<Vec>, values: seq<V>, d: nat,
                       order: seq<nat>): (r: (seq<Vec>, seq<V>))
    requires ValidKernels(kern) && Prompt(queries, keys, d) && |values| == |keys|
    requires 0 < cfg.window <= cfg.capacity && cfg.kernel % 2 == 1
    requires |keys| >= cfg.capacity ==> SortsDescending(order, PooledScores(kern, cfg, queries, keys, d))
  {
    if |keys| < cfg.capacity then (keys, values)
    else
      var (n, top) := (|keys| - cfg.window, order[..cfg.capacity - cfg.window]);
      (Gather(keys[..n], top) + keys[n..], Gather(values[..n], top) + values[n..])
  }

  /** (k', v') are `capacity` distinct positions of (keys, values): the last window in order, and prefix positions
      whose score p is at least that of every dropped one. Key and value of each position stay together. */
  ghost predicate KeepsBest<V>(keys: seq<Vec>, values: seq<V>, p: seq<real>, cfg: Config, pos: seq<nat>, k': seq<Vec>,
                               v': seq<V>) {
    && |values| == |keys| && cfg.window <= cfg.capacity <= |keys| && |p| == |keys| - cfg.window
    && |k'| == |v'| == |pos| == cfg.capacity
    && Distinct(pos)
    && (forall i :: 0 <= i < |pos| ==> pos[i] < |keys| && k'[i] == keys[pos[i]] && v'[i] == values[pos[i]])
    && (forall i :: cfg.capacity - cfg.window <= i < cfg.capacity ==> pos[i] == |keys| - cfg.capacity + i)
    && forall i, t :: 0 <= i < cfg.capacity - cfg.window && 0 <= t < |p| && t !in pos ==>
         pos[i] < |p| && p[pos[i]] >= p[t]
  }

  /** A prompt of at least `capacity` tokens is cut down to its best positions; a shorter one is left alone. */
  lemma {:induction false} CompressionKeepsBest<V>(kern: Kernels, cfg: Config, queries: seq<Vec>, keys: seq<Vec>,
                                                   values: seq<V>, d: nat, order: seq<nat>)
    requires ValidKernels(kern) && Prompt(queries, keys, d) && |values| == |keys|
    requires 0 < cfg.window <= cfg.capacity && cfg.kernel % 2 == 1
    requires |keys| >= cfg.capacity ==> SortsDescending(order, PooledScores(kern, cfg, queries, keys, d))
    ensures var (k', v') := Compress(kern, cfg, queries, keys, values, d, order);
            if |keys| < cfg.capacity then k' == keys && v' == values
            else
              KeepsBest(keys, values, PooledScores(kern, cfg, queries, keys, d), cfg,
                        Kept(|keys|, order, cfg.window, cfg.capacity), k', v')
  {
    hide ValidKernels, Prompt, PooledScores;
    if |keys| >= cfg.capacity {
      var (n, window, capacity) := (|keys|, cfg.window, cfg.capacity);
      var pos := Kept(n, order, window, capacity);
      KeptIsDistinct(n, order, window, capacity);
      forall i | 0 <= i < capacity
        ensures var (k', v') := Compress(kern, cfg, queries, keys, values, d, order);
                pos[i] < n && k'[i] == keys[pos[i]] && v'[i] == values[pos[i]]
      {
      }
      KeptBeatsDropped(n, order, window, capacity, PooledScores(kern, cfg, queries, keys, d));
    }
  }

  lemma {:induction false} KeptIsDistinct(n: nat, order: seq<nat>, window: nat, capacity: nat)
    requires window <= capacity <= n && Permutation(order, n - window)
    ensures Distinct(Kept(n, order, window, capacity))
  {
  }

  lemma {:induction false} KeptBeatsDropped(n: nat, order: seq<nat>, window: nat, capacity: nat, p: seq<real>)
    requires window <= capacity <= n && |p| == n - window && SortsDescending(order, p)
    ensures var pos := Kept(n, order, window, capacity);
            forall i, t :: 0 <= i < capacity - window && 0 <= t < n - window && t !in pos ==>
              pos[i] < n - window && p[pos[i]] >= p[t]
  {
    var pos := Kept(n, order, window, capacity);
    forall r | 0 <= r < capacity - window ensures order[r] in pos {
      assert pos[r] == order[r];
    }
    forall i, t | 0 <= i < capacity - window && 0 <= t < n - window && t !in pos
      ensures pos[i] < n - window && p[pos[i]] >= p[t]
    {
      var r := Occurs(order, |order|, t);
    }
  }

  // ----- even kernels: the top-k may name the position past the prefix, where the gather fails

  /** With an even kernel the top-k may name the position past the prefix: a concrete input. */
  lemma {:induction false} EvenKernelOverruns(scores: seq<real>, order: seq<nat>)
    requires scores == [0.0, 1.0] && order == [2, 1, 0]
    ensures SortsDescending(order, Pooled(scores, 2, MaxPool)) && order[0] == |scores|
  {
    var p := Pooled(scores, 2, MaxPool);
    assert p[0] == WindowMax(scores, 0, 1) == 0.0;
    assert p[1] == WindowMax(scores, 0, 2) == 1.0;
    assert p[2] == WindowMax(scores, 1, 2) == 1.0;
  }

  /** The best `top` pooled positions all exist, whatever the scores and however ties are broken. */
  ghost predicate StaysInside(n: nat, kernel: nat, pooling: Pooling, top: nat, positive: bool)
    requires n > 0 && kernel > 0 && top <= n
  {
    forall scores: seq<real>, order: seq<nat> ::
      |scores| == n && (positive ==> TopP.Positive(scores)) && SortsDescending(order, Pooled(scores, kernel, pooling))
      ==> forall i :: 0 <= i < top ==> order[i] < n
  }

  /** These scores and this order send the top-k past the prefix. */
  lemma {:induction false} Overruns(scores: seq<real>, order: seq<nat>, kernel: nat, pooling: Pooling, top: nat,
                                    positive: bool, i: nat)
    requires scores != [] && kernel > 0 && top <= |scores| && (positive ==> TopP.Positive(scores))
    requires SortsDescending(order, Pooled(scores, kernel, pooling)) && i < top && order[i] == |scores|
    ensures !StaysInside(|scores|, kernel, pooling, top, positive)
  {
  }

  /** If all pooled scores of an even kernel are equal, the last position may come first. */
  lemma {:induction false} TiesOverrun(scores: seq<real>, kernel: nat, pooling: Pooling, top: nat, positive: bool)
    requires scores != [] && kernel > 0 && kernel % 2 == 0 && 0 < top <= |scores|
    requires positive ==> TopP.Positive(scores)
    requires forall i :: 0 <= i <= |scores| ==>
               PooledAt(scores, kernel, pooling, i) == PooledAt(scores, kernel, pooling, 0)
    ensures !StaysInside(|scores|, kernel, pooling, top, positive)
  {
    hide PooledAt, StaysInside;
    var n := |scores|;
    PoolingKeepsLengthIff(n, kernel);
    var order: seq<nat> := seq(n + 1, i requires 0 <= i < n + 1 => n - i);
    Overruns(scores, order, kernel, pooling, top, positive, 0);
  }

  lemma {:induction false} ConstantMax(s: seq<real>, lo: nat, hi: nat, x: real)
    requires lo < hi <= |s| && forall i :: 0 <= i < |s| ==> s[i] == x
    ensures WindowMax(s, lo, hi) == x
  {
    if hi > lo + 1 {
      ConstantMax(s, lo, hi - 1, x);
    }
  }

  lemma {:induction false} ConstantMaxOverruns(n: nat, kernel: nat, top: nat, positive: bool)
    requires kernel > 0 && kernel % 2 == 0 && 0 < top <= n
    ensures !StaysInside(n, kernel, MaxPool, top, positive)
  {
    hide StaysInside, WindowMax;
    var scores := seq(n, _ => 1.0);
    forall i | 0 <= i <= n ensures PooledAt(scores, kernel, MaxPool, i) == 1.0 {
      var start := i - kernel / 2;
      ConstantMax(scores, if start < 0 then 0 else start, if start + kernel > n then n else start + kernel, 1.0);
    }
    TiesOverrun(scores, kernel, MaxPool, top, positive);
  }

  lemma {:induction false} ZeroSum(s: seq<real>, start: int, len: nat)
    requires forall i :: 0 <= i < |s| ==> s[i] == 0.0
    ensures WindowSum(s, start, len) == 0.0
  {
    if len > 0 {
      ZeroSum(s, start, len - 1);
    }
  }

  /** Over all scores: the top-k stays inside the prefix exactly for odd kernels. */
  lemma {:induction false} TopKStaysInsideIff(n: nat, kernel: nat, pooling: Pooling, top: nat)
    requires kernel > 0 && 0 < top <= n
    ensures StaysInside(n, kernel, pooling, top, false) <==> kernel % 2 == 1
  {
    hide PooledAt;
    PoolingKeepsLengthIff(n, kernel);
    if kernel % 2 == 0 {
      hide StaysInside;
      if pooling == MaxPool {
        ConstantMaxOverruns(n, kernel, top, false);
      } else {
        var scores := seq(n, _ => 0.0);
        forall i | 0 <= i <= n ensures PooledAt(scores, kernel, AvgPool, i) == 0.0 {
          AverageOf(scores, kernel, i);
          ZeroSum(scores, i - kernel / 2, kernel);
        }
        TiesOverrun(scores, kernel, AvgPool, top, false);
      }
    }
  }

  lemma {:induction false} AverageOf(s: seq<real>, kernel: nat, i: nat)
    requires kernel > 0 && s != [] && i < PooledLength(|s|, kernel)
    ensures PooledAt(s, kernel, AvgPool, i) == WindowSum(s, i - kernel / 2, kernel) / kernel as real
  {
  }

  // ----- the same for positive scores, which is what softmax gives

  lemma {:induction false} WindowShift(s: seq<real>, start: int, len: nat)
    ensures WindowSum(s, start - 1, len) + At(s, start + len - 1) == WindowSum(s, start, len) + At(s, start - 1)
  {
    if len > 0 {
      WindowShift(s, start, len - 1);
    }
  }

  /** With room before it, the last window of an even kernel sums to less than each of the `kernel / 2` before it. */
  lemma {:induction false} LastIsBeaten(s: seq<real>, kernel: nat, j: nat)
    requires TopP.Positive(s) && kernel % 2 == 0 && 1 <= j <= kernel / 2 < |s|
    ensures WindowSum(s, |s| - j - kernel / 2, kernel) > WindowSum(s, |s| - kernel / 2, kernel)
  {
    hide WindowSum;
    WindowShift(s, |s| - (j - 1) - kernel / 2, kernel);
    if j > 1 {
      LastIsBeaten(s, kernel, j - 1);
    }
  }

  /** Without room every window covers the whole input. */
  lemma {:induction false} AllWindowsWhole(s: seq<real>, kernel: nat, i: nat)
    requires kernel % 2 == 0 && |s| <= kernel / 2 && i <= |s|
    ensures WindowSum(s, i - kernel / 2, kernel) == WindowSum(s, 0 - kernel / 2, kernel)
  {
    hide WindowSum;
    if i > 0 {
      AllWindowsWhole(s, kernel, i - 1);
      WindowShift(s, i - kernel / 2, kernel);
    }
  }

  lemma {:induction false} SumAtMost(s: seq<real>, start: int, len: nat)
    requires forall i :: start <= i < start + len ==> At(s, i) <= 1.0
    ensures WindowSum(s, start, len) <= len as real
  {
    if len > 0 {
      SumAtMost(s, start, len - 1);
    }
  }

  lemma {:induction false} SumAtLeast(s: seq<real>, start: int, len: nat, i: int)
    requires TopP.Positive(s) && (start <= i < start + len || i == |s|)
    ensures WindowSum(s, start, len) >= At(s, i)
  {
    if len > 0 {
      SumAtLeast(s, start, len - 1, if i < start + len - 1 then i else |s|);
    }
  }

  lemma {:induction false} QuotientOrder(x: real, y: real, s: real)
    requires s > 0.0 && x <= y
    ensures x / s <= y / s
  {
  }

  /** Pooled averages compare as their window sums do. */
  lemma {:induction false} AverageOrder(s: seq<real>, kernel: nat, i: nat, j: nat)
    requires kernel > 0 && s != [] && i < PooledLength(|s|, kernel) && j < PooledLength(|s|, kernel)
    ensures PooledAt(s, kernel, AvgPool, i) >= PooledAt(s, kernel, AvgPool, j)
            <==> WindowSum(s, i - kernel / 2, kernel) >= WindowSum(s, j - kernel / 2, kernel)
  {
    hide WindowSum;
    AverageOf(s, kernel, i);
    AverageOf(s, kernel, j);
    var (a, b) := (WindowSum(s, i - kernel / 2, kernel), WindowSum(s, j - kernel / 2, kernel));
    if a >= b {
      QuotientOrder(b, a, kernel as real);
    } else {
      assert a / kernel as real * kernel as real == a && b / kernel as real * kernel as real == b;
    }
  }

  /** With room before it, the position past the prefix is never among the best `kernel / 2`. */
  lemma {:induction false} LastRankIsLow(s: seq<real>, order: seq<nat>, kernel: nat, r: nat)
    requires TopP.Positive(s) && kernel > 0 && kernel % 2 == 0 && kernel / 2 < |s|
    requires SortsDescending(order, Pooled(s, kernel, AvgPool)) && r < |order| && order[r] == |s|
    ensures r >= kernel / 2
  {
    hide PooledAt;
    var n, half := |s|, kernel / 2;
    PoolingKeepsLengthIff(n, kernel);
    var pick: seq<nat> := seq(half, j requires 0 <= j < half => n - 1 - j);
    var ranks := Ranks(order, n + 1, pick);
    forall j | 0 <= j < half ensures ranks[j] < r {
      LastIsBeaten(s, kernel, j + 1);
      AverageOrder(s, kernel, n, n - 1 - j);
      assert order[ranks[j]] == n - 1 - j;
    }
    Pigeonhole(ranks, r);
  }

  /** A late spike lifts the last position past all but the `kernel / 2` windows before it. */
  lemma {:induction false} SpikeOverruns(n: nat, kernel: nat, top: nat)
    requires kernel > 0 && kernel % 2 == 0 && kernel / 2 < n && kernel / 2 < top <= n
    ensures !StaysInside(n, kernel, AvgPool, top, true)
  {
    hide PooledAt, StaysInside, WindowSum;
    var half := kernel / 2;
    PoolingKeepsLengthIff(n, kernel);
    var s := seq(n, t => if t == n - 1 then kernel as real + 1.0 else 1.0);
    var order := SortExists(Pooled(s, kernel, AvgPool));
    var r := Occurs(order, n + 1, n);
    SumAtLeast(s, n - half, kernel, n - 1);
    var late: seq<int> := seq(r, i requires 0 <= i < r => order[i] - (n - half));
    forall i | 0 <= i < r ensures 0 <= late[i] < half {
      AverageOrder(s, kernel, order[i], n);
      if order[i] < n - half {
        SumAtMost(s, order[i] - half, kernel);
      }
    }
    Pigeonhole(late, half);
    Overruns(s, order, kernel, AvgPool, top, true, r);
  }

  /** Over positive scores an average pooling with an even kernel is harmless exactly when it is small against the
      prefix and the top-k small against it; everything else is as over all scores. */
  lemma {:induction false} PositiveTopKStaysInsideIff(n: nat, kernel: nat, pooling: Pooling, top: nat)
    requires kernel > 0 && 0 < top <= n
    ensures StaysInside(n, kernel, pooling, top, true)
            <==> kernel % 2 == 1 || (pooling == AvgPool && top <= kernel / 2 < n)
  {
    hide PooledAt;
    PoolingKeepsLengthIff(n, kernel);
    if kernel % 2 == 0 && pooling == AvgPool && top <= kernel / 2 < n {
      forall scores: seq<real>, order: seq<nat>, i |
        |scores| == n && TopP.Positive(scores) && SortsDescending(order, Pooled(scores, kernel, AvgPool))
        && 0 <= i < top
        ensures order[i] < n
      {
        if order[i] == n {
          LastRankIsLow(scores, order, kernel, i);
        }
      }
    } else if kernel % 2 == 0 {
      hide StaysInside;
      if pooling == MaxPool {
        ConstantMaxOverruns(n, kernel, top, true);
      } else if kernel / 2 < n {
        SpikeOverruns(n, kernel, top);
      } else {
        var ones := seq(n, _ => 1.0);
        forall i | 0 <= i <= n ensures PooledAt(ones, kernel, AvgPool, i) == PooledAt(ones, kernel, AvgPool, 0) {
          AverageOf(ones, kernel, i);
          AverageOf(ones, kernel, 0);
          AllWindowsWhole(ones, kernel, i);
        }
        TiesOverrun(ones, kernel, AvgPool, top, true);
      }
    }
  }
}
