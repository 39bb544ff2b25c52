/** The decode-stage token selector: sink block, top-p middle, recent tail. */
module RabitqSelector {
  import opened LinearAlgebra
  import opened RabitqEstimator
  import opened RabitqIndex
  import opened Wrappers
  import opened RabitqState
  import opened Ranking
  import TopP

  /** The two tensor kernels the selector calls. */
  datatype Kernels = Kernels(softmax: seq<real> -> seq<real>, argsort: seq<real> -> seq<nat>)

  ghost predicate ValidKernels(kern: Kernels) {
    && (forall x: seq<real> :: x != [] ==> TopP.SoftmaxLike(x, kern.softmax(x)))
    && (forall p: seq<real> :: SortsDescending(kern.argsort(p), p))
  }

  /** Attention scores: the estimates divided by `sqrt(head_dim)`. */
  function Scores(num: Numerics, h: Head, est: seq<real>): (r: seq<real>)
    requires ValidNumerics(num) && ValidHead(h)
    ensures |r| == |est|
  {
    SqrtDPositive(num, h);
    seq(|est|, i requires 0 <= i < |est| => est[i] / SqrtD(num, h))
  }

  /** x are the attention scores of these estimates: the estimates over `sqrt(head_dim)`. */
  ghost predicate ScoresOf(num: Numerics, h: Head, est: seq<real>, x: seq<real>) {
    |x| == |est| && forall i :: 0 <= i < |x| ==> x[i] * SqrtD(num, h) == est[i]
  }

  /** What the middle mask is, from the estimates: their scores go through softmax and a descending sort, and the
      mask keeps the largest prefix of that order that the mass limit allows. */
  ghost predicate TopPChoice(num: Numerics, h: Head, est: seq<real>, topP: real, kern: Kernels, mask: seq<bool>)
    requires ValidKernels(kern)
  {
    && 0 < |est| <= |mask|
    && exists x: seq<real>, m: nat ::
         ScoresOf(num, h, est, x)
         && TopP.KeepsLargestPrefix(mask, kern.softmax(x), kern.argsort(kern.softmax(x)), topP, m)
  }

  function MiddleMask(num: Numerics, h: Head, est: seq<real>, topP: real, kern: Kernels, n: nat): (r: seq<bool>)
    requires ValidNumerics(num) && ValidHead(h) && ValidKernels(kern) && 0 < |est| <= n
    ensures |r| == n
  {
    var p := kern.softmax(Scores(num, h, est));
    TopP.TopPMask(p, kern.argsort(p), topP, n)
  }

  lemma {:induction false} MiddleIsTopPChoice(num: Numerics, h: Head, est: seq<real>, topP: real, kern: Kernels, n: nat)
    requires ValidNumerics(num) && ValidHead(h) && ValidKernels(kern) && 0 < |est| <= n
    ensures TopPChoice(num, h, est, topP, kern, MiddleMask(num, h, est, topP, kern, n))
  {
    hide ValidHead, ValidNumerics, Scores, TopP.TopPMask, TopP.KeepsLargestPrefix, TopP.Sum;
    var x := Scores(num, h, est);
    var p := kern.softmax(x);
    assert TopP.SoftmaxLike(x, p);
    TopP.TopPMaskKeepsLargestPrefix(p, kern.argsort(p), topP, n);
    ScoresScaleBack(num, h, est);
    assert ScoresOf(num, h, est, x);
  }

  lemma {:induction false} ScoresScaleBack(num: Numerics, h: Head, est: seq<real>)
    requires ValidNumerics(num) && ValidHead(h)
    ensures forall i :: 0 <= i < |est| ==> Scores(num, h, est)[i] * SqrtD(num, h) == est[i]
  {
    SqrtDPositive(num, h);
    forall i | 0 <= i < |est| ensures Scores(num, h, est)[i] * SqrtD(num, h) == est[i] {
      MultiplyBack(est[i], SqrtD(num, h));
    }
  }

  lemma {:induction false} MultiplyBack(x: real, s: real)
    requires s != 0.0
    ensures x / s * s == x
  {
  }

  /** Where the quantised region ends; without an index the default is the end of the sink block. */
  function QuantizedEnd(slot: Slot, interval: nat): nat {
    if slot.Some? then slot.value.numQuantized else interval
  }

  /** The mask of one head for a topped-up slot, or None where the estimates are missing. `interval` is the
      selector's own argument. */
  function SelectedMask(num: Numerics, h: Head, slot: Slot, q: Vec, n: nat, interval: nat, topP: real, kern: Kernels)
    : (r: Option<seq<bool>>)
    requires ValidNumerics(num) && ValidHead(h) && ValidKernels(kern) && |q| == h.d
    requires slot.Some? ==> Readable(num, h, slot.value.data)
    ensures r.Some? ==> |r.value| == n
  {
    var last := QuantizedEnd(slot, interval);
    if n <= interval then
      Some(seq(n, _ => true))
    else if last <= interval then
      Some(seq(n, i => i < interval || i >= last))
    else
      var est := Distances(num, h, slot, q, last - interval);
      if est.None? || est.value == [] then
        None
      else
        var middle := MiddleMask(num, h, est.value, topP, kern, last - interval);
        Some(seq(n, i => if interval <= i < last then middle[i - interval] else true))
  }

  /** What a mask promises whatever the state: the sink block and everything past the quantised region are
      selected, and in between it is the top-p choice over the estimates read from the index. */
  ghost predicate MaskOf(num: Numerics, h: Head, slot: Slot, q: Vec, n: nat, interval: nat, topP: real, kern: Kernels,
                         mask: seq<bool>)
    requires ValidKernels(kern) && |q| == h.d
    requires slot.Some? ==> Readable(num, h, slot.value.data) && slot.value.numQuantized <= n
  {
    var last := QuantizedEnd(slot, interval);
    && |mask| == n
    && (forall t :: 0 <= t < n && (t < interval || last <= t) ==> mask[t])
    && (interval < last && interval < n ==>
          exists est :: Distances(num, h, slot, q, last - interval) == Some(est)
                        && TopPChoice(num, h, est, topP, kern, mask[interval..last]))
  }

  /** Between the two ends the mask is the middle mask. */
  lemma {:induction false} MiddleOfMask(num: Numerics, h: Head, slot: Slot, q: Vec, n: nat, interval: nat, topP: real,
                                        kern: Kernels, est: seq<real>)
    requires ValidNumerics(num) && ValidHead(h) && ValidKernels(kern) && |q| == h.d
    requires slot.Some? && Readable(num, h, slot.value.data)
    requires interval < slot.value.numQuantized <= n && est != []
    requires Distances(num, h, slot, q, slot.value.numQuantized - interval) == Some(est)
    ensures |est| <= slot.value.numQuantized - interval
    ensures var (last, r) := (slot.value.numQuantized, SelectedMask(num, h, slot, q, n, interval, topP, kern));
            r.Some? && r.value[interval..last] == MiddleMask(num, h, est, topP, kern, last - interval)
  {
    hide ValidHead, ValidNumerics, ValidKernels, Readable, MiddleMask, Distances;
    var last := slot.value.numQuantized;
    EstimatesWithin(num, h, slot, q, last - interval);
    var mask := SelectedMask(num, h, slot, q, n, interval, topP, kern).value;
    var middle := MiddleMask(num, h, est, topP, kern, last - interval);
    forall i | 0 <= i < last - interval ensures mask[interval..last][i] == middle[i] {
      assert mask[interval + i] == middle[i];
    }
  }

  lemma {:induction false} SelectedMaskMeans(num: Numerics, h: Head, slot: Slot, q: Vec, n: nat, interval: nat,
                                             topP: real, kern: Kernels)
    requires ValidNumerics(num) && ValidHead(h) && ValidKernels(kern) && |q| == h.d
    requires slot.Some? ==> Readable(num, h, slot.value.data) && slot.value.numQuantized <= n
    ensures var r := SelectedMask(num, h, slot, q, n, interval, topP, kern);
            && (r.None? <==> interval < n && interval < QuantizedEnd(slot, interval)
                             && Distances(num, h, slot, q, QuantizedEnd(slot, interval) - interval) in {None, Some([])})
            && (r.Some? ==> MaskOf(num, h, slot, q, n, interval, topP, kern, r.value))
  {
    hide ValidHead, ValidNumerics, ValidKernels, Readable, MiddleMask, Distances, TopPChoice;
    var (last, r) := (QuantizedEnd(slot, interval), SelectedMask(num, h, slot, q, n, interval, topP, kern));
    if r.Some? && interval < last && interval < n {
      var est := Distances(num, h, slot, q, last - interval).value;
      EstimatesWithin(num, h, slot, q, last - interval);
      MiddleIsTopPChoice(num, h, est, topP, kern, last - interval);
      MiddleOfMask(num, h, slot, q, n, interval, topP, kern, est);
    }
  }

  /** Fills the mask by slices. `ok` is false where the source raises: the estimates are missing although the
      middle is not empty. */
  method FillMask(num: Numerics, h: Head, slot: Slot, q: Vec, n: nat, interval: nat, topP: real, kern: Kernels)
    returns (ok: bool, mask: array<bool>)
    requires ValidNumerics(num) && ValidHead(h) && ValidKernels(kern) && |q| == h.d
    requires slot.Some? ==> Readable(num, h, slot.value.data) && slot.value.numQuantized <= n
    ensures fresh(mask) && mask.Length == n
    ensures var r := SelectedMask(num, h, slot, q, n, interval, topP, kern);
            ok == r.Some? && (ok ==> mask[..] == r.value)
    ensures ok ==> MaskOf(num, h, slot, q, n, interval, topP, kern, mask[..])
  {
    hide ValidHead, ValidNumerics, ValidKernels, Readable, MiddleMask, Distances, MaskOf;
    SelectedMaskMeans(num, h, slot, q, n, interval, topP, kern);
    mask := new bool[n](_ => false);
    ok := true;
    var firstEnd := if interval < n then interval else n;
    forall i | 0 <= i < firstEnd {
      mask[i] := true;
    }
    if n <= interval {
      return;
    }
    var last := QuantizedEnd(slot, interval);
    if last < n {
      forall i | last <= i < n {
        mask[i] := true;
      }
    }
    if last > interval {
      var est := Distances(num, h, slot, q, last - interval);
      if est.None? || est.value == [] {
        ok := false;
        return;
      }
      EstimatesWithin(num, h, slot, q, last - interval);
      var middle := MiddleMask(num, h, est.value, topP, kern, last - interval);
      forall i | interval <= i < last {
        mask[i] := middle[i - interval];
      }
    }
  }

  lemma {:induction false} EstimatesWithin(num: Numerics, h: Head, slot: Slot, q: Vec, count: nat)
    requires slot.Some? ==> Readable(num, h, slot.value.data) && |q| == h.d
    ensures var est := Distances(num, h, slot, q, count);
            est.Some? ==> |est.value| <= count
  {
  }

  /** The selector: tops up the layer's index, then fills the mask. An untrained layer selects everything. */
  method Select(state: RabitQState, layer: nat, q: Vec, keys: seq<Vec>, interval: nat, topP: real, kern: Kernels)
    returns (ok: bool, mask: array<bool>)
    requires state.Valid() && ValidKernels(kern)
    requires state.Trained(layer) ==>
               AllQuantizable(state.num, state.heads[layer], keys) && |q| == state.heads[layer].d
    requires state.Trained(layer) && state.SlotOf(layer).Some? ==>
               exists first :: Coherent(state.SlotOf(layer), state.num, state.heads[layer], keys, first)
    modifies state`quantizedData, state`numQuantized
    ensures fresh(mask) && mask.Length == |keys| && state.Valid()
    ensures forall l: nat ::
              (l != layer ==> state.SlotOf(l) == old(state.SlotOf(l))) && state.Trained(l) == old(state.Trained(l))
    ensures !state.Trained(layer) ==>
              ok && (forall i :: 0 <= i < |keys| ==> mask[i]) && state.SlotOf(layer) == old(state.SlotOf(layer))
    ensures state.Trained(layer) ==>
              var (num, h) := (state.num, state.heads[layer]);
              && state.SlotOf(layer)
                 == AfterSelection(old(state.SlotOf(layer)), num, h, keys, state.quantizeInterval, interval)
              && (state.SlotOf(layer).Some? ==>
                    && Readable(num, h, state.SlotOf(layer).value.data)
                    && state.SlotOf(layer).value.numQuantized <= |keys|)
              && (ok ==> MaskOf(num, h, state.SlotOf(layer), q, |keys|, interval, topP, kern, mask[..]))
              && var r := SelectedMask(num, h, state.SlotOf(layer), q, |keys|, interval, topP, kern);
                 ok == r.Some? && (ok ==> mask[..] == r.value)
  {
    hide ValidHead, ValidNumerics, ValidKernels, Readable, SelectedMask, MaskOf, Coherent, Quantizable;
    if !state.Trained(layer) {
      mask := new bool[|keys|](_ => true);
      ok := true;
    } else {
      TopUpReadable(state.num, state.heads[layer], state.SlotOf(layer), keys, state.quantizeInterval);
      if |keys| > interval {
        state.QuantizeNewDecodeTokens(keys, layer);
      }
      ok, mask := FillMask(state.num, state.heads[layer], state.SlotOf(layer), q, |keys|, interval, topP, kern);
    }
  }

  /** A sequence within the selector's first interval leaves the index alone; a longer one tops it up. */
  function AfterSelection(slot: Slot, num: Numerics, h: Head, keys: seq<Vec>, stateInterval: nat, interval: nat): Slot
    requires stateInterval > 0 && AllQuantizable(num, h, keys)
  {
    if |keys| <= interval then slot else AfterNewTokens(slot, num, h, keys, stateInterval)
  }

  lemma {:induction false} TopUpReadable(num: Numerics, h: Head, slot: Slot, keys: seq<Vec>, interval: nat)
    requires interval > 0 && AllQuantizable(num, h, keys)
    requires slot.Some? ==> exists first :: Coherent(slot, num, h, keys, first)
    ensures slot.Some? ==> Readable(num, h, slot.value.data) && slot.value.numQuantized <= |keys|
    ensures var after := AfterNewTokens(slot, num, h, keys, interval);
            after.Some? ==> Readable(num, h, after.value.data) && after.value.numQuantized <= |keys|
  {
    hide QuantizeKey, Quantizable, Flatten, Stores, AfterBatch, Readable;
    if slot.Some? {
      var first :| Coherent(slot, num, h, keys, first);
      var q := Zero(h.d);
      CoherentDistances(num, h, slot, keys, first, q, 0);
      CompleteCoherent(slot, num, h, keys, interval, first);
      CoherentDistances(num, h, AfterNewTokens(slot, num, h, keys, interval), keys, first, q, 0);
    }
  }
}
