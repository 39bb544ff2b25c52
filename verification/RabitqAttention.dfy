/** The attention layers' step order: prefill trains and fills the index, each decode step caches a key and selects.
    All layers of a model share one state. */
module RabitqAttention {
  import opened LinearAlgebra
  import opened RabitqEstimator
  import opened RabitqIndex
  import opened Wrappers
  import opened RabitqState
  import opened RabitqSelector
  import opened RabitqRuns
  import RabitqBounds

  // ----- the head a prefill trains

  /** The head for a layer's prefill; the variant without centres keeps only the rotation. */
  function HeadFor(noCenter: bool, queries: seq<Vec>, keys: seq<Vec>, qr: Matrix, d: nat): Head
    requires queries != [] && keys != [] && Rows(queries, d) && Rows(keys, d)
  {
    if noCenter then RabitqBounds.NoCenterHead(qr, d) else TrainedHead(queries, keys, qr, d)
  }

  /** What the trained head needs to quantise its own prompt: `qr` is an orthogonal factor, and a key equal to the
      centroid is divided by a positive `eps`. */
  ghost predicate Trainable(num: Numerics, noCenter: bool, queries: seq<Vec>, keys: seq<Vec>, qr: Matrix, d: nat) {
    && ValidNumerics(num) && d > 0 && Orthogonal(qr, d)
    && queries != [] && keys != [] && Rows(queries, d) && Rows(keys, d)
    && (num.eps > 0.0 || HeadFor(noCenter, queries, keys, qr, d).kCentroid !in keys)
  }

  lemma {:induction false} TrainedHeadQuantizes(num: Numerics, noCenter: bool, queries: seq<Vec>, keys: seq<Vec>,
                                                qr: Matrix, d: nat)
    requires Trainable(num, noCenter, queries, keys, qr, d)
    ensures AllQuantizable(num, HeadFor(noCenter, queries, keys, qr, d), keys)
  {
    hide Mean, ValidHead, ValidNumerics, Orthogonal;
    if noCenter {
      NoCenterHeadIsValid(qr, d);
    } else {
      TrainedHeadIsValid(queries, keys, qr, d);
    }
    forall i | 0 <= i < |keys|
      ensures Quantizable(num, HeadFor(noCenter, queries, keys, qr, d), keys[i])
    {
      assert keys[i] in keys;
    }
  }

  lemma {:induction false} RunStart(num: Numerics, h: Head, interval: nat, keys: seq<Vec>)
    requires interval > 0 && AllQuantizable(num, h, keys)
    ensures keys + [] == keys
    ensures IndexAfter(num, h, interval, false, keys, []) == AfterInitial(None, num, h, keys, interval, interval)
  {
    assert keys + [] == keys;
  }

  /** What a decode step's mask promises: everything for a short prompt, all guarantees of a reachable step for a
      long one. */
  ghost predicate MaskFor(num: Numerics, h: Head, kern: Kernels, interval: nat, promptLength: nat, slot: Slot,
                          keys: seq<Vec>, q: Vec, topP: real, mask: seq<bool>)
    requires ValidNumerics(num) && ValidHead(h) && ValidKernels(kern)
  {
    && |mask| == |keys|
    && if promptLength <= interval then forall t :: 0 <= t < |mask| ==> mask[t]
       else GoodMask(num, h, keys, q, interval, QuantizedEnd(slot, interval), topP, kern, mask)
  }

  /** One more key on a run: the index it leads to is the selector's, and the selector's mask is there and good. */
  lemma {:induction false} NextStep(num: Numerics, h: Head, kern: Kernels, interval: nat, prompt: seq<Vec>,
                                    decoded: seq<Vec>, k: Vec, q: Vec, topP: real)
    requires interval > 0 && AllQuantizable(num, h, prompt + decoded) && Quantizable(num, h, k)
    requires ValidKernels(kern) && |q| == h.d
    ensures var (keys, slot) := (prompt + decoded + [k], IndexAfter(num, h, interval, false, prompt, decoded));
            && keys == prompt + (decoded + [k]) && AllQuantizable(num, h, keys)
            && (slot.Some? ==> exists first :: Coherent(slot, num, h, keys, first))
            && var next := AfterSelection(slot, num, h, keys, interval, interval);
               && next == IndexAfter(num, h, interval, false, prompt, decoded + [k])
               && (next.Some? ==> Readable(num, h, next.value.data))
               && var r := SelectedMask(num, h, next, q, |keys|, interval, topP, kern);
                  r.Some? && MaskFor(num, h, kern, interval, |prompt|, next, keys, q, topP, r.value)
  {
    hide Quantizable, ValidKernels, GoodMask, SelectedMask, AfterNewTokens, Coherent, ValidHead, ValidNumerics,
         QuantizedCount, Readable;
    var keys, slot := prompt + decoded + [k], IndexAfter(num, h, interval, false, prompt, decoded);
    assert keys == prompt + (decoded + [k]);
    assert (decoded + [k])[..|decoded|] == decoded;
    assert keys[..|prompt + decoded|] == prompt + decoded;
    RunCoherent(num, h, interval, false, prompt, decoded);
    CoherentGrows(slot, num, h, keys, |prompt + decoded|, FirstKey(false, interval, |prompt|));
    SelectorSafety(num, h, kern, interval, prompt, decoded + [k], q, topP);
  }

  lemma {:induction false} CacheGrows(num: Numerics, h: Head, prompt: seq<Vec>, decoded: seq<Vec>, k: Vec)
    requires AllQuantizable(num, h, prompt + decoded) && Quantizable(num, h, k)
    ensures prompt + decoded + [k] == prompt + (decoded + [k])
    ensures AllQuantizable(num, h, prompt + (decoded + [k]))
  {
    assert prompt + decoded + [k] == prompt + (decoded + [k]);
  }

  // ----- one layer

  class AttentionLayer {
    const state: RabitQState
    const layer: nat
    // decode steps select tokens from this layer on; the layers before it attend to everything
    const startLayer: nat
    const noCenter: bool
    const topP: real
    const kern: Kernels
    var keyCache: seq<Vec>
    ghost var prompt: seq<Vec>
    ghost var decoded: seq<Vec>

    constructor (state: RabitQState, layer: nat, startLayer: nat, noCenter: bool, topP: real, kern: Kernels)
      requires state.Valid() && !state.Trained(layer) && state.SlotOf(layer).None? && ValidKernels(kern)
      ensures Fresh() && this.state == state && this.layer == layer && this.startLayer == startLayer
      ensures this.noCenter == noCenter && this.topP == topP && this.kern == kern
    {
      this.state, this.layer, this.startLayer, this.noCenter := state, layer, startLayer, noCenter;
      this.topP, this.kern := topP, kern;
      keyCache, prompt, decoded := [], [], [];
    }

    /** Nothing has been fed to the layer yet. */
    ghost predicate Fresh()
      reads this, state
    {
      && state.Valid() && ValidKernels(kern)
      && !state.Trained(layer) && state.SlotOf(layer).None? && keyCache == []
    }

    /** The state of every run after its prefill: the cache is the whole history, and the shared index is what the
        run function says; a layer that does not select keeps its prefill's index. */
    ghost predicate Running()
      reads this, state
    {
      && state.Valid() && ValidKernels(kern) && state.Trained(layer)
      && keyCache == prompt + decoded
      && var (num, h, interval) := (state.num, state.heads[layer], state.quantizeInterval);
         && AllQuantizable(num, h, keyCache) && AllQuantizable(num, h, prompt)
         && state.SlotOf(layer)
            == if layer >= startLayer then IndexAfter(num, h, interval, false, prompt, decoded)
               else AfterInitial(None, num, h, prompt, interval, interval)
    }

    /** A query and a key the layer can take for its next token. */
    ghost predicate Accepts(q: Vec, k: Vec)
      reads this, state
    {
      Running() && Quantizable(state.num, state.heads[layer], k) && |q| == state.heads[layer].d
    }

    /** The mask of the latest decode step. */
    ghost predicate Selected(q: Vec, mask: seq<bool>)
      reads this, state
    {
      && Running()
      && if layer >= startLayer
         then MaskFor(state.num, state.heads[layer], kern, state.quantizeInterval, |prompt|, state.SlotOf(layer),
                      keyCache, q, topP, mask)
         else mask == seq(|keyCache|, _ => true)
    }

    /** The other layers of the shared state keep their training and their index. */
    twostate predicate OthersKept()
      reads state
    {
      forall l: nat :: l != layer ==>
        && state.Trained(l) == old(state.Trained(l))
        && state.SlotOf(l) == old(state.SlotOf(l))
        && (l in old(state.heads) <==> l in state.heads)
        && (l in state.heads ==> state.heads[l] == old(state.heads[l]))
    }

    /** A prompt of more than one token. */
    method Prefill(queries: seq<Vec>, keys: seq<Vec>, qr: Matrix, d: nat)
      requires Fresh() && |queries| == |keys| > 1 && Trainable(state.num, noCenter, queries, keys, qr, d)
      modifies this, state
      ensures Running() && prompt == keys && decoded == [] && OthersKept()
      ensures state.heads[layer] == HeadFor(noCenter, queries, keys, qr, d)
      ensures var h := state.heads[layer];
              if noCenter then h.rotation == qr && h.qCentroid == h.kCentroid == Zero(d)
              else CentredOn(h, queries, keys, qr, d)
    {
      hide AllQuantizable, ValidKernels, AfterInitial, IndexAfter, TrainedHead, Rows, Mean, ValidNumerics, Orthogonal,
           CentredOn;
      TrainedHeadQuantizes(state.num, noCenter, queries, keys, qr, d);
      keyCache := keyCache + keys;
      prompt, decoded := keys, [];
      assert keyCache == keys + [] == keys;
      if noCenter {
        state.TrainNoCenter(layer, qr, d);
      } else {
        state.Train(queries, keys, layer, qr, d);
      }
      state.QuantizeInitialKeys(keys, layer);
      RunStart(state.num, state.heads[layer], state.quantizeInterval, keys);
    }

    /** One decoded token. The selector is given the state's own interval. */
    method Decode(q: Vec, k: Vec) returns (ok: bool, mask: array<bool>)
      requires Accepts(q, k)
      modifies this, state`quantizedData, state`numQuantized
      ensures Running() && prompt == old(prompt) && decoded == old(decoded) + [k] && OthersKept()
      ensures state.heads == old(state.heads)
      ensures ok && fresh(mask) && Selected(q, mask[..])
    {
      hide Quantizable, ValidKernels, MaskFor, SelectedMask, AfterSelection, IndexAfter, Coherent, ValidHead,
           ValidNumerics, Readable;
      CacheGrows(state.num, state.heads[layer], prompt, decoded, k);
      if layer >= startLayer {
        NextStep(state.num, state.heads[layer], kern, state.quantizeInterval, prompt, decoded, k, q, topP);
      }
      keyCache := keyCache + [k];
      decoded := decoded + [k];
      if layer >= startLayer {
        ok, mask := Select(state, layer, q, keyCache, state.quantizeInterval, topP, kern);
      } else {
        ok, mask := true, new bool[|keyCache|](_ => true);
        assert mask[..] == seq(|keyCache|, _ => true);
      }
    }
  }

  // ----- all layers of a model on one state

  /** One layer's prompt: its queries and keys, the orthogonal factor its training draws, and the head dimension. */
  datatype Prompt = Prompt(queries: seq<Vec>, keys: seq<Vec>, qr: Matrix, d: nat)

  class DecoderModel {
    const state: RabitQState
    const layers: seq<AttentionLayer>

    constructor (state: RabitQState, layers: seq<AttentionLayer>)
      ensures this.state == state && this.layers == layers
    {
      this.state, this.layers := state, layers;
    }

    /** Layer i of the model is the state's layer i. */
    ghost predicate Valid()
      reads layers
    {
      forall i :: 0 <= i < |layers| ==> layers[i].state == state && layers[i].layer == i
    }

    /** The first n layers have had their prefill, the others nothing. */
    ghost predicate Prefilled(n: nat)
      reads this, state, layers
    {
      && Valid()
      && (forall i :: 0 <= i < |layers| && i < n ==> layers[i].Running())
      && (forall i :: n <= i < |layers| ==> layers[i].Fresh())
    }

    ghost predicate Running()
      reads this, state, layers
    {
      Prefilled(|layers|)
    }

    /** A prompt layer i can be trained on. */
    ghost predicate Takes(i: nat, p: Prompt)
      requires i < |layers|
    {
      |p.queries| == |p.keys| > 1 && Trainable(state.num, layers[i].noCenter, p.queries, p.keys, p.qr, p.d)
    }

    /** The next layer's prefill. */
    method PrefillLayer(n: nat, p: Prompt)
      requires Prefilled(n) && n < |layers| && Takes(n, p)
      modifies state, layers[n]
      ensures Prefilled(n + 1) && layers[n].prompt == p.keys && layers[n].decoded == []
    {
      hide AllQuantizable, ValidKernels, IndexAfter, AfterInitial, Trainable, HeadFor;
      layers[n].Prefill(p.queries, p.keys, p.qr, p.d);
    }

    /** The prompt passes through the layers in turn. */
    method Prefill(prompts: seq<Prompt>)
      requires Prefilled(0) && |prompts| == |layers|
      requires forall i :: 0 <= i < |layers| ==> Takes(i, prompts[i])
      modifies state, layers
      ensures Running()
      ensures forall i :: 0 <= i < |layers| ==> layers[i].prompt == prompts[i].keys && layers[i].decoded == []
    {
      hide Takes, AttentionLayer.Running, AttentionLayer.Fresh;
      for n := 0 to |layers|
        invariant Prefilled(n)
        invariant forall i :: 0 <= i < n ==> layers[i].prompt == prompts[i].keys && layers[i].decoded == []
      {
        PrefillLayer(n, prompts[n]);
      }
    }

    /** One layer's decode step, at any moment: no other layer notices, in whatever order the layers take turns. */
    method Step(i: nat, q: Vec, k: Vec) returns (mask: seq<bool>)
      requires Running() && i < |layers| && layers[i].Accepts(q, k)
      modifies layers[i], state`quantizedData, state`numQuantized
      ensures Running() && layers[i].Selected(q, mask) && state.heads == old(state.heads)
      ensures layers[i].prompt == old(layers[i].prompt) && layers[i].decoded == old(layers[i].decoded) + [k]
      ensures forall j, q', m :: 0 <= j < |layers| && j != i && old(layers[j].Selected(q', m)) ==>
                layers[j].Selected(q', m)
      ensures forall j, q', k' :: 0 <= j < |layers| && j != i && old(layers[j].Accepts(q', k')) ==>
                layers[j].Accepts(q', k')
      ensures forall j :: 0 <= j < |layers| && j != i ==>
                layers[j].prompt == old(layers[j].prompt) && layers[j].decoded == old(layers[j].decoded)
    {
      hide AllQuantizable, ValidKernels, IndexAfter, AfterInitial, MaskFor, Quantizable;
      var ok, a := layers[i].Decode(q, k);
      mask := a[..];
    }

    /** One decoded token passes through the layers in turn; each gets its own mask. */
    method DecodeToken(queries: seq<Vec>, keys: seq<Vec>) returns (masks: seq<seq<bool>>)
      requires Running() && |queries| == |keys| == |layers|
      requires forall i :: 0 <= i < |layers| ==> layers[i].Accepts(queries[i], keys[i])
      modifies layers, state`quantizedData, state`numQuantized
      ensures Running() && state.heads == old(state.heads) && |masks| == |layers|
      ensures forall i :: 0 <= i < |layers| ==>
                && layers[i].prompt == old(layers[i].prompt)
                && layers[i].decoded == old(layers[i].decoded) + [keys[i]]
                && layers[i].Selected(queries[i], masks[i])
    {
      hide AttentionLayer.Running, AttentionLayer.Accepts, AttentionLayer.Selected;
      masks := [];
      for n := 0 to |layers|
        invariant Running() && state.heads == old(state.heads) && |masks| == n
        invariant forall i :: 0 <= i < n ==>
                    && layers[i].prompt == old(layers[i].prompt)
                    && layers[i].decoded == old(layers[i].decoded) + [keys[i]]
                    && layers[i].Selected(queries[i], masks[i])
        invariant forall i :: n <= i < |layers| ==>
                    && layers[i].prompt == old(layers[i].prompt)
                    && layers[i].decoded == old(layers[i].decoded)
                    && layers[i].Accepts(queries[i], keys[i])
      {
        var mask := Step(n, queries[n], keys[n]);
        masks := masks + [mask];
      }
    }
  }
}
