/** The per-layer key index: batches of codes, filled at prefill and topped up during decode. */
module RabitqIndex {
  import opened LinearAlgebra
  import opened RabitqEstimator
  import opened Wrappers
  import opened Arithmetic

  /** The four lists of batches kept for a layer. */
  datatype LayerData = LayerData(
    codes: seq<seq<seq<bool>>>,
    norms: seq<seq<real>>,
    oObar: seq<seq<real>>,
    cqDotKr: seq<seq<real>>)

  datatype LayerIndex = LayerIndex(data: LayerData, numQuantized: nat)

  type Slot = Option<LayerIndex>

  const EMPTY_DATA := LayerData([], [], [], [])

  /** Concatenation of all batches along the token axis. */
  function Flatten<T>(batches: seq<seq<T>>): seq<T> {
    if batches == [] then [] else Flatten(batches[..|batches| - 1]) + batches[|batches| - 1]
  }

  ghost predicate AllQuantizable(num: Numerics, h: Head, keys: seq<Vec>) {
    ValidNumerics(num) && ValidHead(h) && forall i :: 0 <= i < |keys| ==> Quantizable(num, h, keys[i])
  }

  /** The one-key quantiser mapped over a run of keys. */
  function QuantizeAll(num: Numerics, h: Head, keys: seq<Vec>): (r: seq<KeyCode>)
    requires AllQuantizable(num, h, keys)
  {
    seq(|keys|, i requires 0 <= i < |keys| => QuantizeKey(num, h, keys[i]))
  }

  function CodesOf(kcs: seq<KeyCode>): seq<seq<bool>> {
    seq(|kcs|, i requires 0 <= i < |kcs| => kcs[i].code)
  }

  function NormsOf(kcs: seq<KeyCode>): seq<real> {
    seq(|kcs|, i requires 0 <= i < |kcs| => kcs[i].norm)
  }

  function OObarOf(kcs: seq<KeyCode>): seq<real> {
    seq(|kcs|, i requires 0 <= i < |kcs| => kcs[i].oObar)
  }

  function CqDotKrOf(kcs: seq<KeyCode>): seq<real> {
    seq(|kcs|, i requires 0 <= i < |kcs| => kcs[i].cqDotKr)
  }

  function AppendBatch(data: LayerData, batch: seq<KeyCode>): LayerData {
    LayerData(data.codes + [CodesOf(batch)], data.norms + [NormsOf(batch)],
              data.oObar + [OObarOf(batch)], data.cqDotKr + [CqDotKrOf(batch)])
  }

  /** The lists, once concatenated, are exactly the fields of `kcs` in order. */
  ghost predicate Stores(data: LayerData, kcs: seq<KeyCode>) {
    && |data.codes| == |data.norms| == |data.oObar| == |data.cqDotKr|
    && Flatten(data.codes) == CodesOf(kcs)
    && Flatten(data.norms) == NormsOf(kcs)
    && Flatten(data.oObar) == OObarOf(kcs)
    && Flatten(data.cqDotKr) == CqDotKrOf(kcs)
  }

  lemma {:induction false} FlattenAppend<T>(batches: seq<seq<T>>, b: seq<T>)
    ensures Flatten(batches + [b]) == Flatten(batches) + b
  {
    assert (batches + [b])[..|batches|] == batches;
  }

  lemma {:induction false} AppendBatchStores(data: LayerData, kcs: seq<KeyCode>, batch: seq<KeyCode>)
    requires Stores(data, kcs)
    ensures Stores(AppendBatch(data, batch), kcs + batch)
  {
    hide CodesOf, NormsOf, OObarOf, CqDotKrOf, Flatten;
    FlattenAppend(data.codes, CodesOf(batch));
    FlattenAppend(data.norms, NormsOf(batch));
    FlattenAppend(data.oObar, OObarOf(batch));
    FlattenAppend(data.cqDotKr, CqDotKrOf(batch));
    FieldsAppend(kcs, batch);
  }

  lemma {:induction false} FieldsAppend(kcs: seq<KeyCode>, batch: seq<KeyCode>)
    ensures CodesOf(kcs + batch) == CodesOf(kcs) + CodesOf(batch)
    ensures NormsOf(kcs + batch) == NormsOf(kcs) + NormsOf(batch)
    ensures OObarOf(kcs + batch) == OObarOf(kcs) + OObarOf(batch)
    ensures CqDotKrOf(kcs + batch) == CqDotKrOf(kcs) + CqDotKrOf(batch)
  {
  }

  // ----- what each operation does to one layer's slot

  function AfterBatch(slot: Slot, num: Numerics, h: Head, keys: seq<Vec>, start: nat, end: nat): Slot
    requires start <= end <= |keys| && AllQuantizable(num, h, keys)
  {
    var data := if slot.Some? then slot.value.data else EMPTY_DATA;
    Some(LayerIndex(AppendBatch(data, QuantizeAll(num, h, keys[start..end])), end))
  }

  /** The prefill loop from `start` on: batches of `interval`, the last one possibly shorter. */
  function AfterInitial(slot: Slot, num: Numerics, h: Head, keys: seq<Vec>, interval: nat, start: nat): Slot
    requires interval > 0 && AllQuantizable(num, h, keys)
    decreases |keys| - start
  {
    if start < |keys| then
      var end := if start + interval < |keys| then start + interval else |keys|;
      AfterInitial(AfterBatch(slot, num, h, keys, start, end), num, h, keys, interval, end)
    else
      slot
  }

  /** The decode loop from `start` on: complete batches only. */
  function AfterComplete(slot: Slot, num: Numerics, h: Head, keys: seq<Vec>, interval: nat, start: nat): Slot
    requires interval > 0 && AllQuantizable(num, h, keys)
    decreases |keys| - start
  {
    if start + interval <= |keys| then
      AfterComplete(AfterBatch(slot, num, h, keys, start, start + interval), num, h, keys, interval, start + interval)
    else
      slot
  }

  /** Topping up does nothing until prefill has created the layer's index. */
  function AfterNewTokens(slot: Slot, num: Numerics, h: Head, keys: seq<Vec>, interval: nat): Slot
    requires interval > 0 && AllQuantizable(num, h, keys)
  {
    if slot.None? then slot else AfterComplete(slot, num, h, keys, interval, slot.value.numQuantized)
  }

  // ----- coherence with the plain map over keys

  /** The index holds the codes of the keys `[first, numQuantized)`, in order. */
  ghost predicate Coherent(slot: Slot, num: Numerics, h: Head, keys: seq<Vec>, first: nat)
    requires AllQuantizable(num, h, keys)
  {
    slot.Some? ==>
      && first <= slot.value.numQuantized <= |keys|
      && (slot.value.numQuantized > first ==> slot.value.data.codes != [])
      && Stores(slot.value.data, QuantizeAll(num, h, keys[first..slot.value.numQuantized]))
  }

  lemma {:induction false} BatchCoherent(slot: Slot, num: Numerics, h: Head, keys: seq<Vec>, first: nat, start: nat,
                                         end: nat)
    requires AllQuantizable(num, h, keys) && first <= start <= end <= |keys|
    requires Coherent(slot, num, h, keys, first)
    requires if slot.None? then start == first else start == slot.value.numQuantized
    ensures var after := AfterBatch(slot, num, h, keys, start, end);
            after.Some? && after.value.numQuantized == end && Coherent(after, num, h, keys, first)
  {
    hide QuantizeAll, Stores;
    var data := if slot.Some? then slot.value.data else EMPTY_DATA;
    NothingStored(num, h, keys, first);
    AppendBatchStores(data, QuantizeAll(num, h, keys[first..start]), QuantizeAll(num, h, keys[start..end]));
    QuantizeAllSplit(num, h, keys, first, start, end);
  }

  lemma {:induction false} NothingStored(num: Numerics, h: Head, keys: seq<Vec>, first: nat)
    requires AllQuantizable(num, h, keys) && first <= |keys|
    ensures Stores(EMPTY_DATA, QuantizeAll(num, h, keys[first..first]))
  {
  }

  lemma {:induction false} QuantizeAllSplit(num: Numerics, h: Head, keys: seq<Vec>, a: nat, b: nat, c: nat)
    requires AllQuantizable(num, h, keys) && a <= b <= c <= |keys|
    ensures QuantizeAll(num, h, keys[a..b]) + QuantizeAll(num, h, keys[b..c]) == QuantizeAll(num, h, keys[a..c])
  {
    assert keys[a..b] + keys[b..c] == keys[a..c];
  }

  lemma {:induction false} InitialCoherent(slot: Slot, num: Numerics, h: Head, keys: seq<Vec>, interval: nat,
                                           first: nat, start: nat)
    requires interval > 0 && AllQuantizable(num, h, keys)
    requires first <= start && Coherent(slot, num, h, keys, first)
    requires if slot.None? then start == first else start == slot.value.numQuantized
    ensures var after := AfterInitial(slot, num, h, keys, interval, start);
            && Coherent(after, num, h, keys, first)
            && (start < |keys| ==> after.Some? && after.value.numQuantized == |keys|)
            && (start >= |keys| ==> after == slot)
    decreases |keys| - start
  {
    hide AfterBatch, Coherent, AllQuantizable;
    if start < |keys| {
      var end := if start + interval < |keys| then start + interval else |keys|;
      BatchCoherent(slot, num, h, keys, first, start, end);
      InitialCoherent(AfterBatch(slot, num, h, keys, start, end), num, h, keys, interval, first, end);
    }
  }

  /** How many of n tokens lie in complete batches of m. */
  function Completed(m: nat, n: nat): nat
    requires m > 0
  {
    m * (n / m)
  }

  lemma {:induction false} CompletedWithin(m: nat, n: nat)
    requires m > 0
    ensures n - m < Completed(m, n) <= n
  {
  }

  /** Complete batches taken first leave the rest to be completed on its own. */
  lemma {:induction false} CompletedSplits(m: nat, a: nat, n: nat)
    requires m > 0 && Completed(m, a) <= n
    ensures Completed(m, a) + Completed(m, n - Completed(m, a)) == Completed(m, n)
  {
    var (p, q, r) := (a / m, (n - m * (a / m)) / m, n / m);
    assert n - m * p == m * q + (n - m * p) % m;
    assert n == m * r + n % m;
    assert (p + q) * m == m * p + m * q;
    SameMultiple(p + q, r, m, n % m - (n - m * p) % m);
  }

  /** Topping up completes every batch it can. */
  lemma {:induction false} CompleteCoherent(slot: Slot, num: Numerics, h: Head, keys: seq<Vec>, interval: nat,
                                            first: nat)
    requires interval > 0 && AllQuantizable(num, h, keys)
    requires slot.Some? && Coherent(slot, num, h, keys, first)
    ensures var (start, after) := (slot.value.numQuantized,
                                   AfterComplete(slot, num, h, keys, interval, slot.value.numQuantized));
            && after.Some? && Coherent(after, num, h, keys, first)
            && start <= |keys|
            && after.value.numQuantized == start + Completed(interval, |keys| - start) <= |keys|
            && |keys| - interval < after.value.numQuantized
            && (|keys| < start + interval ==> after == slot)
    decreases |keys| - slot.value.numQuantized
  {
    hide AfterBatch, Stores, QuantizeAll, AllQuantizable, Completed;
    var start := slot.value.numQuantized;
    CompletedWithin(interval, |keys| - start);
    CompletedFirst(interval, |keys| - start);
    if start + interval <= |keys| {
      BatchCoherent(slot, num, h, keys, first, start, start + interval);
      CompleteCoherent(AfterBatch(slot, num, h, keys, start, start + interval), num, h, keys, interval, first);
    }
  }

  lemma {:induction false} CompletedFirst(m: nat, n: nat)
    requires m > 0
    ensures Completed(m, n) == if n < m then 0 else m + Completed(m, n - m)
  {
    if n >= m {
      assert m / m == 1 && Completed(m, m) == m;
      CompletedSplits(m, m, n);
    }
  }

  // ----- whole runs: one prefill, then any number of decoded tokens

  /** A layer before its prefill: never used, or emptied by a reset. */
  function StartSlot(reset: bool): Slot {
    if reset then Some(LayerIndex(EMPTY_DATA, 0)) else None
  }

  /** The slot after a prompt and `decoded`; a sequence within the first interval is left alone. */
  function IndexAfter(num: Numerics, h: Head, interval: nat, reset: bool, prompt: seq<Vec>, decoded: seq<Vec>): Slot
    requires interval > 0 && AllQuantizable(num, h, prompt + decoded)
    decreases |decoded|
  {
    if decoded == [] then
      assert prompt + decoded == prompt;
      AfterInitial(StartSlot(reset), num, h, prompt, interval, interval)
    else
      var keys := prompt + decoded;
      assert prompt + decoded[..|decoded| - 1] == keys[..|keys| - 1];
      var before := IndexAfter(num, h, interval, reset, prompt, decoded[..|decoded| - 1]);
      if |keys| <= interval then before else AfterNewTokens(before, num, h, keys, interval)
  }

  /** The first key the index holds: after a reset and a short prompt, decoding fills it from token 0. */
  function FirstKey(reset: bool, interval: nat, promptLength: nat): nat {
    if reset && promptLength <= interval then 0 else interval
  }

  /** How many keys the index counts as quantised; only meaningful once the layer has an index. */
  function QuantizedCount(interval: nat, promptLength: nat, decodedLength: nat): nat
    requires interval > 0
  {
    if promptLength > interval then promptLength + Completed(interval, decodedLength)
    else if promptLength + decodedLength > interval && decodedLength > 0
    then Completed(interval, promptLength + decodedLength)
    else 0
  }

  /** On every reachable state the index agrees with the map over keys, and its size has a closed form. */
  lemma {:induction false} RunCoherent(num: Numerics, h: Head, interval: nat, reset: bool, prompt: seq<Vec>,
                                       decoded: seq<Vec>)
    requires interval > 0 && AllQuantizable(num, h, prompt + decoded)
    ensures var slot := IndexAfter(num, h, interval, reset, prompt, decoded);
            && Coherent(slot, num, h, prompt + decoded, FirstKey(reset, interval, |prompt|))
            && (slot.Some? <==> reset || |prompt| > interval)
            && (slot.Some? ==> slot.value.numQuantized == QuantizedCount(interval, |prompt|, |decoded|))
    decreases |decoded|
  {
    hide QuantizeKey, Quantizable, Flatten, Stores, AfterBatch, AfterComplete, QuantizedCount, AllQuantizable;
    var (keys, first) := (prompt + decoded, FirstKey(reset, interval, |prompt|));
    if decoded == [] {
      assert keys == prompt;
      PrefillCoherent(num, h, interval, reset, prompt);
      CountAtPrefill(interval, |prompt|);
    } else {
      var shorter := decoded[..|decoded| - 1];
      assert prompt + shorter == keys[..|keys| - 1];
      AllQuantizableShorter(num, h, keys, |keys| - 1);
      RunCoherent(num, h, interval, reset, prompt, shorter);
      var before := IndexAfter(num, h, interval, reset, prompt, shorter);
      if before.Some? {
        CoherentGrows(before, num, h, keys, |keys| - 1, first);
        CompleteCoherent(before, num, h, keys, interval, first);
        CountGrows(interval, |prompt|, |decoded|);
      }
    }
  }

  lemma {:induction false} AllQuantizableShorter(num: Numerics, h: Head, keys: seq<Vec>, n: nat)
    requires AllQuantizable(num, h, keys) && n <= |keys|
    ensures AllQuantizable(num, h, keys[..n])
  {
  }

  lemma {:induction false} CountAtPrefill(interval: nat, promptLength: nat)
    requires interval > 0
    ensures QuantizedCount(interval, promptLength, 0) == if promptLength > interval then promptLength else 0
  {
    CompletedWithin(interval, 0);
  }

  /** One more token: a sequence within the first interval changes nothing, a longer one completes what it can. */
  lemma {:induction false} CountGrows(interval: nat, promptLength: nat, decodedLength: nat)
    requires interval > 0 && decodedLength > 0
    ensures var n := promptLength + decodedLength;
            var before := QuantizedCount(interval, promptLength, decodedLength - 1);
            && before <= n
            && QuantizedCount(interval, promptLength, decodedLength)
               == if n <= interval then before else before + Completed(interval, n - before)
  {
    hide Completed;
    CompletedWithin(interval, decodedLength - 1);
    CompletedWithin(interval, promptLength + decodedLength - 1);
    CompletedSplits(interval, decodedLength - 1, decodedLength);
    CompletedSplits(interval, promptLength + decodedLength - 1, promptLength + decodedLength);
  }

  lemma {:induction false} PrefillCoherent(num: Numerics, h: Head, interval: nat, reset: bool, prompt: seq<Vec>)
    requires interval > 0 && AllQuantizable(num, h, prompt)
    ensures var slot := AfterInitial(StartSlot(reset), num, h, prompt, interval, interval);
            && Coherent(slot, num, h, prompt, FirstKey(reset, interval, |prompt|))
            && (slot.Some? <==> reset || |prompt| > interval)
            && (|prompt| > interval ==> slot.value.numQuantized == |prompt|)
  {
    hide QuantizeKey, Quantizable, Flatten, Stores;
    InitialCoherent(None, num, h, prompt, interval, interval, interval);
    if reset && |prompt| <= interval {
      NothingStored(num, h, prompt, 0);
    }
  }

  lemma {:induction false} CoherentGrows(slot: Slot, num: Numerics, h: Head, keys: seq<Vec>, n: nat, first: nat)
    requires AllQuantizable(num, h, keys) && n <= |keys|
    requires Coherent(slot, num, h, keys[..n], first)
    ensures Coherent(slot, num, h, keys, first)
  {
    if slot.Some? {
      assert keys[..n][first..slot.value.numQuantized] == keys[first..slot.value.numQuantized];
    }
  }

  // ----- how the keys are cut into batches

  function Sizes(slot: Slot): seq<nat> {
    if slot.None? then []
    else seq(|slot.value.data.codes|, i requires 0 <= i < |slot.value.data.codes| => |slot.value.data.codes[i]|)
  }

  /** n keys in batches of `interval`, the last one with the rest. */
  function Cuts(n: nat, interval: nat): seq<nat>
    requires interval > 0
  {
    if n == 0 then [] else if n <= interval then [n] else [interval] + Cuts(n - interval, interval)
  }

  function Full(m: nat, interval: nat): seq<nat> {
    seq(m, _ => interval)
  }

  lemma {:induction false} BatchSize(slot: Slot, num: Numerics, h: Head, keys: seq<Vec>, start: nat, end: nat)
    requires start <= end <= |keys| && AllQuantizable(num, h, keys)
    ensures Sizes(AfterBatch(slot, num, h, keys, start, end)) == Sizes(slot) + [end - start]
  {
  }

  lemma {:induction false} InitialSizes(slot: Slot, num: Numerics, h: Head, keys: seq<Vec>, interval: nat, start: nat)
    requires interval > 0 && AllQuantizable(num, h, keys)
    ensures Sizes(AfterInitial(slot, num, h, keys, interval, start))
            == Sizes(slot) + Cuts(if start < |keys| then |keys| - start else 0, interval)
    decreases |keys| - start
  {
    hide Sizes, AfterBatch, AllQuantizable;
    if start < |keys| {
      var end := if start + interval < |keys| then start + interval else |keys|;
      BatchSize(slot, num, h, keys, start, end);
      InitialSizes(AfterBatch(slot, num, h, keys, start, end), num, h, keys, interval, end);
    }
  }

  lemma {:induction false} CompleteSizes(slot: Slot, num: Numerics, h: Head, keys: seq<Vec>, interval: nat, start: nat)
    requires interval > 0 && AllQuantizable(num, h, keys) && start <= |keys|
    ensures Sizes(AfterComplete(slot, num, h, keys, interval, start))
            == Sizes(slot) + Full((|keys| - start) / interval, interval)
    decreases |keys| - start
  {
    hide Sizes, AfterBatch, AllQuantizable;
    OneLess(|keys| - start, interval);
    if start + interval <= |keys| {
      BatchSize(slot, num, h, keys, start, start + interval);
      CompleteSizes(AfterBatch(slot, num, h, keys, start, start + interval), num, h, keys, interval, start + interval);
      assert [interval] + Full((|keys| - start - interval) / interval, interval)
             == Full((|keys| - start) / interval, interval);
    }
  }

  lemma {:induction false} OneLess(n: nat, m: nat)
    requires m > 0
    ensures n / m == if n < m then 0 else (n - m) / m + 1
  {
    assert n == m * (n / m) + n % m;
    if n >= m {
      assert n - m == m * ((n - m) / m) + (n - m) % m;
      SameMultiple(n / m, (n - m) / m + 1, m, (n - m) % m - n % m);
    } else {
      SameMultiple(n / m, 0, m, n - n % m);
    }
  }

  /** After a long prompt the batches are those of the prefill, full ones and a shorter last, and then full ones
      only: one for each `interval` decoded tokens. */
  lemma {:induction false} RunSizes(num: Numerics, h: Head, interval: nat, prompt: seq<Vec>, decoded: seq<Vec>)
    requires interval > 0 && AllQuantizable(num, h, prompt + decoded) && |prompt| > interval
    ensures Sizes(IndexAfter(num, h, interval, false, prompt, decoded))
            == Cuts(|prompt| - interval, interval) + Full(|decoded| / interval, interval)
    decreases |decoded|
  {
    hide Sizes, Cuts, AfterBatch, AfterComplete, AfterInitial, AllQuantizable, Coherent;
    var keys := prompt + decoded;
    if decoded == [] {
      assert keys == prompt && 0 / interval == 0;
      InitialSizes(None, num, h, prompt, interval, interval);
      NoSizes();
    } else {
      var shorter := decoded[..|decoded| - 1];
      assert prompt + shorter == keys[..|keys| - 1];
      AllQuantizableShorter(num, h, keys, |keys| - 1);
      RunCoherent(num, h, interval, false, prompt, shorter);
      RunSizes(num, h, interval, prompt, shorter);
      var before := IndexAfter(num, h, interval, false, prompt, shorter);
      CountGrows(interval, |prompt|, |decoded|);
      CompleteSizes(before, num, h, keys, interval, before.value.numQuantized);
      BatchesAddUp(interval, |decoded| - 1, |decoded|);
      assert Full((|decoded| - 1) / interval, interval)
             + Full((|keys| - before.value.numQuantized) / interval, interval)
             == Full(|decoded| / interval, interval);
    }
  }

  lemma {:induction false} NoSizes()
    ensures Sizes(None) == []
  {
  }

  lemma {:induction false} BatchesAddUp(m: nat, a: nat, n: nat)
    requires m > 0 && a <= n
    ensures Completed(m, a) <= n && a / m + (n - Completed(m, a)) / m == n / m
  {
    CompletedWithin(m, a);
    CompletedSplits(m, a, n);
    var (p, q, r) := (a / m, (n - Completed(m, a)) / m, n / m);
    assert (p + q) * m == m * p + m * q;
    SameMultiple(p + q, r, m, 0);
  }

  /** The cuts of n keys: as many full batches as fit, and one more with the rest if there is one. */
  lemma {:induction false} CutsMean(n: nat, interval: nat)
    requires interval > 0
    ensures Cuts(n, interval)
            == Full(n / interval, interval) + if n % interval == 0 then [] else [n % interval]
  {
    OneLess(n, interval);
    assert n == interval * (n / interval) + n % interval;
    if n > interval {
      CutsMean(n - interval, interval);
      SameRest(n, interval);
      assert [interval] + Full((n - interval) / interval, interval) == Full(n / interval, interval);
    } else if n == interval {
      SameRest(n, interval);
      assert 0 / interval == 0 && Full(1, interval) == [interval];
    }
  }

  lemma {:induction false} SameRest(n: nat, m: nat)
    requires 0 < m <= n
    ensures n % m == (n - m) % m
  {
    OneLess(n, m);
    assert n == m * (n / m) + n % m && n - m == m * ((n - m) / m) + (n - m) % m;
    assert m * ((n - m) / m + 1) == m * ((n - m) / m) + m;
  }

  /** y's lists start with x's. */
  ghost predicate PrefixOf(x: LayerData, y: LayerData) {
    && Flatten(x.codes) <= Flatten(y.codes)
    && Flatten(x.norms) <= Flatten(y.norms)
    && Flatten(x.oObar) <= Flatten(y.oObar)
    && Flatten(x.cqDotKr) <= Flatten(y.cqDotKr)
  }

  /** Of two indexes coherent with the same keys, the one that has got further starts with the other's lists. */
  lemma {:induction false} CoherentPrefix(num: Numerics, h: Head, keys: seq<Vec>, first: nat, a: LayerIndex,
                                          b: LayerIndex)
    requires AllQuantizable(num, h, keys)
    requires Coherent(Some(a), num, h, keys, first) && Coherent(Some(b), num, h, keys, first)
    ensures |Flatten(a.data.codes)| == a.numQuantized - first
    ensures a.numQuantized <= b.numQuantized ==> PrefixOf(a.data, b.data)
  {
    hide QuantizeKey, Quantizable, Flatten;
    if a.numQuantized <= b.numQuantized {
      QuantizeAllSplit(num, h, keys, first, a.numQuantized, b.numQuantized);
      FieldsAppend(QuantizeAll(num, h, keys[first..a.numQuantized]),
                   QuantizeAll(num, h, keys[a.numQuantized..b.numQuantized]));
    }
  }

  /** The result does not depend on how batches were cut: two runs that split the same keys differently into
      prompt and decoded tokens hold the same lists wherever both have quantised. */
  lemma {:induction false} BatchCutsDoNotMatter(num: Numerics, h: Head, interval: nat, p1: seq<Vec>, d1: seq<Vec>,
                                                p2: seq<Vec>, d2: seq<Vec>)
    requires interval > 0 && p1 + d1 == p2 + d2 && AllQuantizable(num, h, p1 + d1)
    requires |p1| > interval && |p2| > interval
    ensures var a := IndexAfter(num, h, interval, false, p1, d1);
            var b := IndexAfter(num, h, interval, false, p2, d2);
            && a.Some? && b.Some?
            && (|Flatten(a.value.data.codes)| <= |Flatten(b.value.data.codes)| ==>
                  PrefixOf(a.value.data, b.value.data))
  {
    hide AllQuantizable, Coherent, Flatten, IndexAfter, PrefixOf, QuantizedCount;
    RunCoherent(num, h, interval, false, p1, d1);
    RunCoherent(num, h, interval, false, p2, d2);
    var a := IndexAfter(num, h, interval, false, p1, d1).value;
    var b := IndexAfter(num, h, interval, false, p2, d2).value;
    CoherentPrefix(num, h, p1 + d1, interval, a, b);
    CoherentPrefix(num, h, p1 + d1, interval, b, a);
  }
}
