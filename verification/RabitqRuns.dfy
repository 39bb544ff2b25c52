/** Whole runs of one attention layer: a prefill, then decode steps that append a key and select tokens. */
module RabitqRuns {
  import opened LinearAlgebra
  import opened RabitqEstimator
  import opened RabitqIndex
  import opened Wrappers
  import opened Arithmetic
  import opened Ranking
  import opened RabitqState
  import opened RabitqSelector
  import RabitqBounds
  import TopP

  // ----- what the middle mask is made of

  /** Estimates, in order, for the keys `first`, `first + 1`, and so on. */
  ghost predicate EstimatesOf(num: Numerics, h: Head, keys: seq<Vec>, first: nat, q: Vec, est: seq<real>) {
    first + |est| <= |keys| && forall i :: 0 <= i < |est| ==> IsEstimate(num, h, keys[first + i], q, est[i])
  }

  /** A top-p choice keeps at least one token, keeps no estimate below a dropped one, and never looks past the
      estimates it was given. */
  lemma {:induction false} ChoiceKeepsBest(num: Numerics, h: Head, est: seq<real>, topP: real, kern: Kernels,
                                           mask: seq<bool>)
    requires ValidNumerics(num) && ValidHead(h) && ValidKernels(kern) && TopPChoice(num, h, est, topP, kern, mask)
    ensures exists t :: 0 <= t < |est| && mask[t]
    ensures forall t, u :: 0 <= t < |est| && 0 <= u < |est| && mask[t] && !mask[u] ==> est[t] >= est[u]
    ensures forall t :: |est| <= t < |mask| ==> !mask[t]
  {
    var x: seq<real>, m: nat :|
      ScoresOf(num, h, est, x)
      && TopP.KeepsLargestPrefix(mask, kern.softmax(x), kern.argsort(kern.softmax(x)), topP, m);
    KernelsSort(kern, x);
    hide ValidHead, ValidNumerics, ValidKernels, ScoresOf, TopP.KeepsLargestPrefix, SortsDescending, Permutation;
    var p := kern.softmax(x);
    TopP.PrefixBeatsRest(mask, p, kern.argsort(p), topP, m);
    forall t, u | 0 <= t < |est| && 0 <= u < |est| && mask[t] && !mask[u] ensures est[t] >= est[u] {
      assert p[t] >= p[u];
      ScoresKeepOrder(num, h, est, x, t, u);
    }
  }

  lemma {:induction false} KernelsSort(kern: Kernels, x: seq<real>)
    requires ValidKernels(kern) && x != []
    ensures var p := kern.softmax(x);
            && |p| == |x|
            && SortsDescending(kern.argsort(p), p)
            && forall i, j :: 0 <= i < |x| && 0 <= j < |x| && p[i] >= p[j] ==> x[i] >= x[j]
  {
    assert TopP.SoftmaxLike(x, kern.softmax(x));
  }

  lemma {:induction false} ScoresKeepOrder(num: Numerics, h: Head, est: seq<real>, x: seq<real>, t: nat, u: nat)
    requires ValidNumerics(num) && ValidHead(h) && ScoresOf(num, h, est, x)
    requires t < |est| && u < |est| && x[t] >= x[u]
    ensures est[t] >= est[u]
  {
    SqrtDPositive(num, h);
    hide ValidHead, ValidNumerics;
    ProductOfOrder(x[u], x[t], SqrtD(num, h));
  }

  lemma {:induction false} ProductOfOrder(x: real, y: real, s: real)
    requires s > 0.0 && x <= y
    ensures x * s <= y * s
  {
    NonNegativeProduct(y - x, s);
  }

  // ----- safety of every reachable decode step

  /** Sink, middle and tail partition the sequence; sink and tail are fully selected; the middle is the top-p
      choice over the estimates of its own keys. */
  ghost predicate GoodMask(num: Numerics, h: Head, keys: seq<Vec>, q: Vec, interval: nat, last: nat, topP: real,
                           kern: Kernels, mask: seq<bool>)
    requires ValidNumerics(num) && ValidHead(h) && ValidKernels(kern)
  {
    && interval < last <= |keys| == |mask|
    && |keys| - last < interval
    && (forall t :: 0 <= t < interval ==> mask[t])
    && (forall t :: last <= t < |keys| ==> mask[t])
    && exists est :: && |est| == last - interval
                     && EstimatesOf(num, h, keys, interval, q, est)
                     && TopPChoice(num, h, est, topP, kern, mask[interval..last])
  }

  lemma {:induction false} SelectorSafety(num: Numerics, h: Head, kern: Kernels, interval: nat, prompt: seq<Vec>,
                                          decoded: seq<Vec>, q: Vec, topP: real)
    requires interval > 0 && decoded != [] && AllQuantizable(num, h, prompt + decoded)
    requires ValidKernels(kern) && |q| == h.d
    ensures var keys := prompt + decoded;
            var slot := IndexAfter(num, h, interval, false, prompt, decoded);
            && (slot.Some? ==> Readable(num, h, slot.value.data))
            && var r := SelectedMask(num, h, slot, q, |keys|, interval, topP, kern);
               && r.Some?
               && (|prompt| <= interval ==> forall t :: 0 <= t < |keys| ==> r.value[t])
               && (|prompt| > interval ==>
                     && slot.Some?
                     && GoodMask(num, h, keys, q, interval, slot.value.numQuantized, topP, kern, r.value)
                     && |keys| - slot.value.numQuantized == |decoded| % interval)
  {
    hide QuantizeKey, Quantizable, Flatten, Stores, IndexAfter, MiddleMask, TopPChoice, IsEstimate, ValidHead,
         ValidNumerics, ValidKernels, Readable, Distances;
    var keys := prompt + decoded;
    var slot := IndexAfter(num, h, interval, false, prompt, decoded);
    RunCoherent(num, h, interval, false, prompt, decoded);
    CoherentDistances(num, h, slot, keys, interval, q, QuantizedEnd(slot, interval) - interval);
    if |prompt| > interval {
      CompletedRemainder(interval, |decoded|);
      var last := slot.value.numQuantized;
      var est := Distances(num, h, slot, q, last - interval).value;
      var mask := SelectedMask(num, h, slot, q, |keys|, interval, topP, kern).value;
      MiddleOfMask(num, h, slot, q, |keys|, interval, topP, kern, est);
      MiddleIsTopPChoice(num, h, est, topP, kern, last - interval);
      assert EstimatesOf(num, h, keys, interval, q, est);
    }
  }

  lemma {:induction false} CompletedRemainder(m: nat, n: nat)
    requires m > 0
    ensures n - Completed(m, n) == n % m
  {
  }

  /** What a good mask means for single tokens: something in the middle is kept, and a kept middle token has an
      estimate at least as high as any dropped one. */
  lemma {:induction false} GoodMaskKeepsBest(num: Numerics, h: Head, keys: seq<Vec>, q: Vec, interval: nat, last: nat,
                                             topP: real, kern: Kernels, mask: seq<bool>)
    requires ValidNumerics(num) && ValidHead(h) && ValidKernels(kern)
    requires GoodMask(num, h, keys, q, interval, last, topP, kern, mask)
    ensures exists t :: interval <= t < last && mask[t]
    ensures forall t, u, x, y ::
              (interval <= t < last && interval <= u < last && mask[t] && !mask[u]
               && IsEstimate(num, h, keys[t], q, x) && IsEstimate(num, h, keys[u], q, y)) ==> x >= y
  {
    hide TopPChoice, ValidHead, ValidNumerics, ValidKernels, Quantizable, QuantizeKey, Estimate;
    var est :| && |est| == last - interval
               && EstimatesOf(num, h, keys, interval, q, est)
               && TopPChoice(num, h, est, topP, kern, mask[interval..last]);
    ChoiceKeepsBest(num, h, est, topP, kern, mask[interval..last]);
    var middle := mask[interval..last];
    var t0 :| 0 <= t0 < |est| && middle[t0];
    assert mask[interval + t0];
    forall t, u, x, y | interval <= t < last && interval <= u < last && mask[t] && !mask[u]
                        && IsEstimate(num, h, keys[t], q, x) && IsEstimate(num, h, keys[u], q, y)
      ensures x >= y
    {
      assert middle[t - interval] && !middle[u - interval];
      assert keys[interval + (t - interval)] == keys[t] && keys[interval + (u - interval)] == keys[u];
      assert est[t - interval] == x && est[u - interval] == y;
    }
  }

  /** `radius` covers the estimation error of `q . k`, computed from the stored numbers of k. */
  ghost predicate ErrorRadius(num: Numerics, h: Head, k: Vec, q: Vec, radius: real) {
    && RabitqBounds.QueryAndKey(num, h, k, q)
    && radius >= 0.0
    && var kc, qr := QuantizeKey(num, h, k), Sub(q, h.qCentroid);
       && kc.oObar + num.eps > 0.0
       && Dot(qr, qr) * RabitqBounds.ErrorSpread(num, kc) <= radius * radius
  }

  /** The guarantee on true scores: a dropped middle token beats a kept one by at most their two error radii. */
  lemma {:induction false} KeptScoreGuarantee(num: Numerics, h: Head, keys: seq<Vec>, q: Vec, interval: nat,
                                              last: nat, topP: real, kern: Kernels, mask: seq<bool>, t: nat, u: nat,
                                              radiusT: real, radiusU: real)
    requires ValidNumerics(num) && ValidHead(h) && ValidKernels(kern)
    requires GoodMask(num, h, keys, q, interval, last, topP, kern, mask)
    requires interval <= t < last && interval <= u < last && mask[t] && !mask[u]
    requires ErrorRadius(num, h, keys[t], q, radiusT) && ErrorRadius(num, h, keys[u], q, radiusU)
    ensures Dot(q, keys[u]) - Dot(q, keys[t]) <= radiusT + radiusU
  {
    hide Dot, QuantizeKey, Estimate, ValidHead, ValidNumerics, RabitqBounds.ErrorSpread, TopPChoice, IsEstimate;
    var x := EstimateWithinRadius(num, h, keys[t], q, radiusT);
    var y := EstimateWithinRadius(num, h, keys[u], q, radiusU);
    GoodMaskKeepsBest(num, h, keys, q, interval, last, topP, kern, mask);
  }

  lemma {:induction false} EstimateWithinRadius(num: Numerics, h: Head, k: Vec, q: Vec, radius: real) returns (x: real)
    requires ErrorRadius(num, h, k, q, radius)
    ensures IsEstimate(num, h, k, q, x)
    ensures Dot(q, k) - radius <= x <= Dot(q, k) + radius
  {
    hide Dot, QuantizeKey, Estimate, ValidHead, ValidNumerics, RabitqBounds.ErrorSpread;
    RabitqBounds.ErrorBound(num, h, k, q);
    x := Estimate(num, h, QuantizeKey(num, h, k), q);
    Within(x - Dot(q, k), radius);
  }

  lemma {:induction false} Within(err: real, radius: real)
    requires radius >= 0.0 && RabitqBounds.Square(err) <= radius * radius
    ensures -radius <= err <= radius
  {
    if err >= 0.0 {
      RootOrder(err, radius);
    } else {
      assert RabitqBounds.Square(err) == (-err) * (-err);
      RootOrder(-err, radius);
    }
  }

  // ----- when index and selector disagree about where the index starts

  /** Which key's estimate decides token t: the index starts at `first`, the selector's middle at `interval`. */
  function JudgingKey(first: nat, interval: nat, t: nat): int {
    first + (t - interval)
  }

  /** The mask of a coherent index that starts at `first`, read by a selector with its own `interval`. Every middle
      token is judged, and by its own key, exactly when the two starts agree; tokens beyond the estimates are
      never selected. */
  lemma {:induction false} MiddleJudgedBy(num: Numerics, h: Head, slot: Slot, keys: seq<Vec>, first: nat, q: Vec,
                                          interval: nat, topP: real, kern: Kernels)
    returns (mask: seq<bool>, est: seq<real>)
    requires AllQuantizable(num, h, keys) && ValidKernels(kern) && |q| == h.d
    requires slot.Some? && Coherent(slot, num, h, keys, first)
    requires interval < |keys| && interval < slot.value.numQuantized && first < slot.value.numQuantized
    ensures var last := slot.value.numQuantized;
            && Readable(num, h, slot.value.data)
            && SelectedMask(num, h, slot, q, |keys|, interval, topP, kern) == Some(mask)
            && |mask| == |keys|
            && |est| == last - (if interval < first then first else interval)
            && EstimatesOf(num, h, keys, first, q, est)
            && TopPChoice(num, h, est, topP, kern, mask[interval..last])
            && (forall t :: interval + |est| <= t < last ==> !mask[t])
            && ((forall t :: interval <= t < last ==> t < interval + |est| && JudgingKey(first, interval, t) == t)
                <==> first == interval)
  {
    hide QuantizeKey, Quantizable, Flatten, Stores, MiddleMask, TopPChoice, IsEstimate, ValidHead, ValidNumerics,
         ValidKernels, Readable, Distances;
    var last := slot.value.numQuantized;
    CoherentDistances(num, h, slot, keys, first, q, last - interval);
    est := Distances(num, h, slot, q, last - interval).value;
    MiddleIsTopPChoice(num, h, est, topP, kern, last - interval);
    ChoiceKeepsBest(num, h, est, topP, kern, MiddleMask(num, h, est, topP, kern, last - interval));
    mask := SelectedMask(num, h, slot, q, |keys|, interval, topP, kern).value;
    var middle := MiddleMask(num, h, est, topP, kern, last - interval);
    MiddleOfMask(num, h, slot, q, |keys|, interval, topP, kern, est);
    assert mask[interval..last] == middle;
    forall t | interval + |est| <= t < last ensures !mask[t] {
      assert mask[t] == middle[t - interval];
    }
    assert JudgingKey(first, interval, interval) == first;
  }

  /** A selector interval below the state's own (the defaults are 128 and 512) leaves as many of the newest
      quantised tokens as the difference unselected at every decode step, whatever the scores. */
  lemma {:induction false} NarrowSelectorDropsTokens(num: Numerics, h: Head, kern: Kernels, stateInterval: nat,
                                                     interval: nat, prompt: seq<Vec>, decoded: seq<Vec>, q: Vec,
                                                     topP: real)
    returns (slot: Slot, mask: seq<bool>)
    requires 0 < interval < stateInterval < |prompt|
    requires AllQuantizable(num, h, prompt + decoded) && ValidKernels(kern) && |q| == h.d
    ensures slot.Some? && Readable(num, h, slot.value.data) && slot.value.numQuantized <= |prompt| + |decoded| == |mask|
    ensures stateInterval < slot.value.numQuantized
    ensures forall t :: slot.value.numQuantized - (stateInterval - interval) <= t < slot.value.numQuantized ==> !mask[t]
    ensures SelectedMask(num, h, slot, q, |prompt| + |decoded|, interval, topP, kern) == Some(mask)
    ensures slot == IndexAfter(num, h, stateInterval, false, prompt, decoded)
  {
    hide IndexAfter, SelectedMask, TopPChoice, Quantizable, ValidHead, ValidKernels, EstimatesOf, Completed;
    RunCoherent(num, h, stateInterval, false, prompt, decoded);
    slot := IndexAfter(num, h, stateInterval, false, prompt, decoded);
    var est;
    mask, est := MiddleJudgedBy(num, h, slot, prompt + decoded, stateInterval, q, interval, topP, kern);
  }

  /** When some quantised token lies past the first interval: after a long prompt always, after a reset and a short
      one as soon as two intervals of keys are there, and otherwise never. */
  lemma {:induction false} MiddleReachedIff(interval: nat, promptLength: nat, decodedLength: nat)
    requires interval > 0
    ensures QuantizedCount(interval, promptLength, decodedLength) > interval
            <==> promptLength > interval || promptLength + decodedLength >= 2 * interval
  {
    var n := promptLength + decodedLength;
    CompletedWithin(interval, n);
    ProductOrder(interval, n / interval, 1);
    ProductOrder(interval, 2, n / interval);
  }

  /** After a reset, a prompt within the first interval makes every later middle token be judged by the key one
      interval before it; after any other start each is judged by its own. The condition for a middle to be there at
      all is exact. */
  lemma {:induction false} ResetShiftsJudgement(num: Numerics, h: Head, kern: Kernels, interval: nat, reset: bool,
                                                prompt: seq<Vec>, decoded: seq<Vec>, q: Vec, topP: real)
    returns (slot: Slot, mask: seq<bool>, est: seq<real>)
    requires interval > 0 && AllQuantizable(num, h, prompt + decoded) && ValidKernels(kern) && |q| == h.d
    ensures slot == IndexAfter(num, h, interval, reset, prompt, decoded)
    ensures slot.Some? && slot.value.numQuantized > interval
            <==> |prompt| > interval || (reset && |prompt| + |decoded| >= 2 * interval)
    ensures slot.Some? && slot.value.numQuantized > interval ==>
              && Readable(num, h, slot.value.data)
              && slot.value.numQuantized == interval + |est| <= |prompt| + |decoded| == |mask|
              && SelectedMask(num, h, slot, q, |prompt| + |decoded|, interval, topP, kern) == Some(mask)
              && 0 < |est|
              && TopPChoice(num, h, est, topP, kern, mask[interval..interval + |est|])
              && EstimatesOf(num, h, prompt + decoded, if reset && |prompt| <= interval then 0 else interval, q, est)
  {
    hide IndexAfter, SelectedMask, TopPChoice, Quantizable, ValidHead, ValidKernels, EstimatesOf, QuantizedCount;
    RunCoherent(num, h, interval, reset, prompt, decoded);
    MiddleReachedIff(interval, |prompt|, |decoded|);
    slot, mask, est := IndexAfter(num, h, interval, reset, prompt, decoded), [], [];
    if slot.Some? && slot.value.numQuantized > interval {
      var first := FirstKey(reset, interval, |prompt|);
      mask, est := MiddleJudgedBy(num, h, slot, prompt + decoded, first, q, interval, topP, kern);
    }
  }
}
