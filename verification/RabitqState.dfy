/** The state manager shared by all layers: trained heads, key indexes and the estimates read from them. */
module RabitqState {
  import opened LinearAlgebra
  import opened RabitqEstimator
  import opened RabitqIndex
  import opened Wrappers
  import RabitqBounds

  // ----- centroids

  ghost predicate Rows(rows: seq<Vec>, d: nat) {
    forall i :: 0 <= i < |rows| ==> |rows[i]| == d
  }

  function SumRows(rows: seq<Vec>, d: nat): (r: Vec)
    requires Rows(rows, d)
    ensures |r| == d
  {
    if rows == [] then Zero(d) else Add(rows[0], SumRows(rows[1..], d))
  }

  function Mean(rows: seq<Vec>, d: nat): (r: Vec)
    requires rows != [] && Rows(rows, d)
    ensures |r| == d
  {
    Scale(1.0 / |rows| as real, SumRows(rows, d))
  }

  function Centred(rows: seq<Vec>, c: Vec): (r: seq<Vec>)
    requires Rows(rows, |c|)
    ensures Rows(r, |c|) && |r| == |rows|
  {
    seq(|rows|, i requires 0 <= i < |rows| => Sub(rows[i], c))
  }

  lemma {:induction false} SumOfCentred(rows: seq<Vec>, c: Vec, i: nat)
    requires Rows(rows, |c|) && i < |c|
    ensures SumRows(Centred(rows, c), |c|)[i] == SumRows(rows, |c|)[i] - |rows| as real * c[i]
  {
    hide SumRows, Centred;
    SumRowsHead(rows, |c|, i);
    SumRowsHead(Centred(rows, c), |c|, i);
    if rows != [] {
      SumOfCentred(rows[1..], c, i);
      CentredHead(rows, c);
      CentredStep(|rows[1..]| as real, c[i], SumRows(Centred(rows[1..], c), |c|)[i], SumRows(rows[1..], |c|)[i]);
    }
  }

  lemma {:induction false} SumRowsHead(rows: seq<Vec>, d: nat, i: nat)
    requires Rows(rows, d) && i < d
    ensures SumRows(rows, d)[i] == if rows == [] then 0.0 else rows[0][i] + SumRows(rows[1..], d)[i]
  {
  }

  lemma {:induction false} CentredHead(rows: seq<Vec>, c: Vec)
    requires rows != [] && Rows(rows, |c|)
    ensures Centred(rows, c)[0] == Sub(rows[0], c) && Centred(rows, c)[1..] == Centred(rows[1..], c)
  {
  }

  lemma {:induction false} CentredStep(n: real, x: real, centred: real, plain: real)
    requires centred == plain - n * x
    ensures centred - x == plain - (n + 1.0) * x
  {
  }

  /** Subtracting the trained centroid centres the prefill rows: their residuals sum to zero. */
  lemma {:induction false} MeanCentres(rows: seq<Vec>, d: nat)
    requires rows != [] && Rows(rows, d)
    ensures SumRows(Centred(rows, Mean(rows, d)), d) == Zero(d)
  {
    hide SumRows, Centred, Mean;
    forall i | 0 <= i < d ensures SumRows(Centred(rows, Mean(rows, d)), d)[i] == 0.0 {
      SumOfCentred(rows, Mean(rows, d), i);
      MeanAt(rows, d, i);
    }
  }

  lemma {:induction false} MeanAt(rows: seq<Vec>, d: nat, i: nat)
    requires rows != [] && Rows(rows, d) && i < d
    ensures |rows| as real * Mean(rows, d)[i] == SumRows(rows, d)[i]
  {
    hide SumRows;
    CancelFactor(|rows| as real, SumRows(rows, d)[i], Mean(rows, d)[i]);
  }

  lemma {:induction false} CancelFactor(n: real, x: real, mean: real)
    requires n > 0.0 && mean == 1.0 / n * x
    ensures n * mean == x
  {
    assert 1.0 / n * n == 1.0;
    assert n * mean == 1.0 / n * n * x;
  }

  function TrainedHead(queries: seq<Vec>, keys: seq<Vec>, rotation: Matrix, d: nat): Head
    requires queries != [] && keys != [] && Rows(queries, d) && Rows(keys, d)
  {
    var (cq, ck) := (Mean(queries, d), Mean(keys, d));
    Head(d, rotation, cq, ck, Dot(cq, ck))
  }

  /** What training promises of a head: the drawn rotation, and centroids that centre the prefill queries and keys,
      each its own. */
  ghost predicate CentredOn(h: Head, queries: seq<Vec>, keys: seq<Vec>, qr: Matrix, d: nat)
    requires Rows(queries, d) && Rows(keys, d)
  {
    && h.d == d && h.rotation == qr
    && |h.qCentroid| == |h.kCentroid| == d
    && SumRows(Centred(queries, h.qCentroid), d) == Zero(d)
    && SumRows(Centred(keys, h.kCentroid), d) == Zero(d)
    && h.cqDotCk == Dot(h.qCentroid, h.kCentroid)
  }

  lemma {:induction false} TrainedHeadCentres(queries: seq<Vec>, keys: seq<Vec>, rotation: Matrix, d: nat)
    requires queries != [] && keys != [] && Rows(queries, d) && Rows(keys, d)
    ensures CentredOn(TrainedHead(queries, keys, rotation, d), queries, keys, rotation, d)
  {
    hide SumRows, Centred, Mean, Dot;
    MeanCentres(queries, d);
    MeanCentres(keys, d);
  }

  lemma {:induction false} TrainedHeadIsValid(queries: seq<Vec>, keys: seq<Vec>, rotation: Matrix, d: nat)
    requires d > 0 && queries != [] && keys != [] && Rows(queries, d) && Rows(keys, d) && Orthogonal(rotation, d)
    ensures ValidHead(TrainedHead(queries, keys, rotation, d))
  {
  }

  lemma {:induction false} NoCenterHeadIsValid(rotation: Matrix, d: nat)
    requires d > 0 && Orthogonal(rotation, d)
    ensures ValidHead(RabitqBounds.NoCenterHead(rotation, d))
  {
    DotZero(Zero(d));
  }

  // ----- reading the index

  /** What `distances` needs of the stored lists. */
  ghost predicate Readable(num: Numerics, h: Head, data: LayerData) {
    var n := |Flatten(data.codes)|;
    && ValidNumerics(num) && ValidHead(h)
    && |Flatten(data.norms)| == |Flatten(data.oObar)| == |Flatten(data.cqDotKr)| == n
    && forall i :: 0 <= i < n ==> |Flatten(data.codes)[i]| == h.d && Flatten(data.oObar)[i] + num.eps != 0.0
  }

  function StoredCode(data: LayerData, i: nat): KeyCode
    requires i < |Flatten(data.codes)|
    requires |Flatten(data.norms)| == |Flatten(data.oObar)| == |Flatten(data.cqDotKr)| == |Flatten(data.codes)|
  {
    KeyCode(Flatten(data.codes)[i], Flatten(data.norms)[i], Flatten(data.oObar)[i], Flatten(data.cqDotKr)[i])
  }

  /** Estimates for the first `count` stored keys (all of them if fewer are stored); none without an index. */
  function Distances(num: Numerics, h: Head, slot: Slot, q: Vec, count: nat): Option<seq<real>>
    requires slot.Some? ==> Readable(num, h, slot.value.data) && |q| == h.d
  {
    if slot.None? || slot.value.data.codes == [] then
      None
    else
      var data := slot.value.data;
      var n := if count < |Flatten(data.codes)| then count else |Flatten(data.codes)|;
      Some(seq(n, i requires 0 <= i < n => Estimate(num, h, StoredCode(data, i), q)))
  }

  /** x is the one-key estimate of `q . k`. */
  ghost predicate IsEstimate(num: Numerics, h: Head, k: Vec, q: Vec, x: real) {
    && Quantizable(num, h, k) && |q| == h.d
    && var kc := QuantizeKey(num, h, k);
       kc.oObar + num.eps != 0.0 && x == Estimate(num, h, kc, q)
  }

  /** Entry i of a coherent index's estimates is the one-key estimate for key `first + i`. */
  lemma {:induction false} CoherentDistances(num: Numerics, h: Head, slot: Slot, keys: seq<Vec>, first: nat, q: Vec,
                                             count: nat)
    requires AllQuantizable(num, h, keys) && Coherent(slot, num, h, keys, first) && |q| == h.d
    ensures slot.Some? ==> Readable(num, h, slot.value.data)
    ensures var r := Distances(num, h, slot, q, count);
            slot.Some? && slot.value.numQuantized > first ==>
              && r.Some?
              && |r.value|
                 == (if count < slot.value.numQuantized - first then count else slot.value.numQuantized - first)
              && forall i :: 0 <= i < |r.value| ==> IsEstimate(num, h, keys[first + i], q, r.value[i])
  {
    hide QuantizeKey, Estimate, Flatten, Quantizable;
    if slot.Some? {
      var data, n := slot.value.data, slot.value.numQuantized - first;
      var kcs := QuantizeAll(num, h, keys[first..slot.value.numQuantized]);
      forall i | 0 <= i < n
        ensures kcs[i] == QuantizeKey(num, h, keys[first + i]) && kcs[i].oObar + num.eps > 0.0 && |kcs[i].code| == h.d
      {
        RabitqBounds.StoredDotBounds(num, h, keys[first + i]);
      }
      forall i | 0 <= i < n ensures StoredCode(data, i) == kcs[i] {
        assert CodesOf(kcs)[i] == kcs[i].code;
      }
      assert Readable(num, h, data);
      if slot.value.numQuantized > first {
        var r := Distances(num, h, slot, q, count);
        forall i | 0 <= i < |r.value| ensures IsEstimate(num, h, keys[first + i], q, r.value[i]) {
          assert StoredCode(data, i) == kcs[i] == QuantizeKey(num, h, keys[first + i]);
        }
      }
    }
  }

  // ----- the state manager

  class RabitQState {
    const quantizeInterval: nat
    const num: Numerics
    // the four per-layer dictionaries that training writes together
    var heads: map<nat, Head>
    var quantizedData: map<nat, LayerData>
    var numQuantized: map<nat, nat>
    var isTrained: map<nat, bool>

    predicate Trained(layer: nat)
      reads this
    {
      layer in isTrained && isTrained[layer]
    }

    ghost predicate Valid()
      reads this
    {
      && quantizeInterval > 0
      && (forall l :: l in quantizedData <==> l in numQuantized)
      && (forall l :: Trained(l) ==> l in heads)
    }

    function SlotOf(layer: nat): Slot
      reads this
    {
      if layer in quantizedData && layer in numQuantized
      then Some(LayerIndex(quantizedData[layer], numQuantized[layer]))
      else None
    }

    constructor (interval: nat, num: Numerics)
      requires interval > 0
      ensures Valid() && quantizeInterval == interval && this.num == num
      ensures forall l: nat :: !Trained(l) && SlotOf(l).None?
    {
      quantizeInterval, this.num := interval, num;
      heads, quantizedData, numQuantized, isTrained := map[], map[], map[], map[];
    }

    /** Fixes a layer's head from its first prefill; later prefills change nothing. The rows are those of every
        batch entry for this head, and `qr` is the orthogonal factor of the random matrix. */
    method Train(queries: seq<Vec>, keys: seq<Vec>, layer: nat, qr: Matrix, d: nat)
      requires Valid() && queries != [] && keys != [] && Rows(queries, d) && Rows(keys, d)
      modifies this`heads, this`isTrained
      ensures Valid() && Trained(layer)
      ensures heads
              == if old(Trained(layer)) then old(heads) else old(heads)[layer := TrainedHead(queries, keys, qr, d)]
      ensures !old(Trained(layer)) ==> CentredOn(heads[layer], queries, keys, qr, d)
      ensures forall l: nat :: (l != layer ==> Trained(l) == old(Trained(l))) && SlotOf(l) == old(SlotOf(l))
    {
      if !Trained(layer) {
        TrainedHeadCentres(queries, keys, qr, d);
        var (cq, ck) := (Mean(queries, d), Mean(keys, d));
        heads := heads[layer := Head(d, qr, cq, ck, Dot(cq, ck))];
        isTrained := isTrained[layer := true];
      }
    }

    /** The variant without centroids: the same rotation, both centroids at zero. */
    method TrainNoCenter(layer: nat, qr: Matrix, d: nat)
      requires Valid()
      modifies this`heads, this`isTrained
      ensures Valid() && Trained(layer)
      ensures heads == if old(Trained(layer)) then old(heads) else old(heads)[layer := RabitqBounds.NoCenterHead(qr, d)]
      ensures !old(Trained(layer)) ==>
                && heads[layer].d == d && heads[layer].rotation == qr && heads[layer].cqDotCk == 0.0
                && heads[layer].qCentroid == heads[layer].kCentroid == Zero(d)
      ensures forall l: nat :: (l != layer ==> Trained(l) == old(Trained(l))) && SlotOf(l) == old(SlotOf(l))
    {
      if !Trained(layer) {
        heads := heads[layer := Head(d, qr, Zero(d), Zero(d), 0.0)];
        isTrained := isTrained[layer := true];
      }
    }

    method QuantizeKeysBatch(keys: seq<Vec>, layer: nat, start: nat, end: nat)
      requires Valid() && Trained(layer) && AllQuantizable(num, heads[layer], keys) && start <= end <= |keys|
      modifies this`quantizedData, this`numQuantized
      ensures Valid()
      ensures SlotOf(layer) == AfterBatch(old(SlotOf(layer)), num, heads[layer], keys, start, end)
      ensures forall l: nat :: (l != layer ==> SlotOf(l) == old(SlotOf(l))) && Trained(l) == old(Trained(l))
    {
      hide Dot, ValidHead, ValidNumerics, Quantizable, QuantizeKey, QuantizeAll, CodesOf, NormsOf, OObarOf, CqDotKrOf;
      if layer !in quantizedData {
        quantizedData := quantizedData[layer := EMPTY_DATA];
        numQuantized := numQuantized[layer := 0];
      }
      var batch := QuantizeAll(num, heads[layer], keys[start..end]);
      var d := quantizedData[layer];
      d := d.(codes := d.codes + [CodesOf(batch)]);
      d := d.(norms := d.norms + [NormsOf(batch)]);
      d := d.(oObar := d.oObar + [OObarOf(batch)]);
      d := d.(cqDotKr := d.cqDotKr + [CqDotKrOf(batch)]);
      quantizedData := quantizedData[layer := d];
      numQuantized := numQuantized[layer := end];
    }

    method QuantizeInitialKeys(keys: seq<Vec>, layer: nat)
      requires Valid() && Trained(layer) && AllQuantizable(num, heads[layer], keys)
      modifies this`quantizedData, this`numQuantized
      ensures Valid()
      ensures SlotOf(layer)
              == AfterInitial(old(SlotOf(layer)), num, heads[layer], keys, quantizeInterval, quantizeInterval)
      ensures forall l: nat :: (l != layer ==> SlotOf(l) == old(SlotOf(l))) && Trained(l) == old(Trained(l))
    {
      hide Dot, ValidHead, ValidNumerics, Quantizable, QuantizeKey, AfterBatch;
      var start := quantizeInterval;
      ghost var h := heads[layer];
      while start < |keys|
        invariant Valid() && Trained(layer) && heads[layer] == h
        invariant AfterInitial(SlotOf(layer), num, h, keys, quantizeInterval, start)
                  == AfterInitial(old(SlotOf(layer)), num, h, keys, quantizeInterval, quantizeInterval)
        invariant forall l: nat :: (l != layer ==> SlotOf(l) == old(SlotOf(l))) && Trained(l) == old(Trained(l))
        decreases |keys| - start
      {
        var end := if start + quantizeInterval < |keys| then start + quantizeInterval else |keys|;
        QuantizeKeysBatch(keys, layer, start, end);
        start := end;
      }
    }

    method QuantizeNewDecodeTokens(keys: seq<Vec>, layer: nat)
      requires Valid() && Trained(layer) && AllQuantizable(num, heads[layer], keys)
      modifies this`quantizedData, this`numQuantized
      ensures Valid()
      ensures SlotOf(layer) == AfterNewTokens(old(SlotOf(layer)), num, heads[layer], keys, quantizeInterval)
      ensures forall l: nat :: (l != layer ==> SlotOf(l) == old(SlotOf(l))) && Trained(l) == old(Trained(l))
    {
      hide Dot, ValidHead, ValidNumerics, Quantizable, QuantizeKey;
      if layer !in numQuantized {
        return;
      }
      var already := numQuantized[layer];
      if |keys| >= already + quantizeInterval {
        var start := already;
        ghost var h := heads[layer];
        while start + quantizeInterval <= |keys|
          invariant Valid() && Trained(layer) && heads[layer] == h
          invariant SlotOf(layer).Some?
          invariant AfterComplete(SlotOf(layer), num, h, keys, quantizeInterval, start)
                    == AfterComplete(old(SlotOf(layer)), num, h, keys, quantizeInterval, already)
          invariant forall l: nat :: (l != layer ==> SlotOf(l) == old(SlotOf(l))) && Trained(l) == old(Trained(l))
          decreases |keys| - start
        {
          var end := start + quantizeInterval;
          QuantizeKeysBatch(keys, layer, start, end);
          start := end;
        }
      }
    }

    method ResetLayer(layer: nat)
      requires Valid()
      modifies this`quantizedData, this`numQuantized
      ensures Valid()
      ensures SlotOf(layer) == if old(SlotOf(layer)).Some? then Some(LayerIndex(EMPTY_DATA, 0)) else None
      ensures forall l: nat :: (l != layer ==> SlotOf(l) == old(SlotOf(l))) && Trained(l) == old(Trained(l))
    {
      if layer in quantizedData {
        quantizedData := quantizedData[layer := EMPTY_DATA];
        numQuantized := numQuantized[layer := 0];
      }
    }
  }
}
