/** Merging streamed request outputs: one completion per index, grown in place by its deltas. */
module StreamMerge {
  import opened Wrappers

  /** The value of a completion. `cumulative`, `finishReason` and `stopReason` pass through the merge unread. */
  datatype Completion = Completion(
    index: int,
    text: string,
    tokens: seq<int>,
    logprobs: Option<seq<int>>,
    cumulative: Option<real>,
    finishReason: Option<string>,
    stopReason: Option<string>)

  /** A list of logprobs is true in a condition only if it is there and not empty. */
  predicate Truthy(logprobs: Option<seq<int>>) {
    logprobs.Some? && logprobs.value != []
  }

  // ----- one merge

  function Merged(c: Completion, next: Completion): Completion {
    Completion(
      c.index,
      c.text + next.text,
      c.tokens + next.tokens,
      if Truthy(next.logprobs) && c.logprobs.Some? then Some(c.logprobs.value + next.logprobs.value) else c.logprobs,
      next.cumulative,
      next.finishReason,
      next.stopReason)
  }

  /** The assertion inside the merge: logprobs may only be added to logprobs. */
  predicate Mergeable(c: Completion, next: Completion) {
    Truthy(next.logprobs) ==> c.logprobs.Some?
  }

  /** Position of the first completion with this index, or the length if there is none. */
  function Find(outs: seq<Completion>, index: int): (i: nat)
    ensures i <= |outs|
    ensures i < |outs| ==> outs[i].index == index
    ensures forall j :: 0 <= j < i ==> outs[j].index != index
  {
    if outs == [] then 0
    else
      var i := Find(outs[..|outs| - 1], index);
      if i < |outs| - 1 || outs[|outs| - 1].index == index then i else |outs|
  }

  function AddOne(outs: seq<Completion>, next: Completion, aggregate: bool): seq<Completion> {
    var i := Find(outs, next.index);
    if i == |outs| then outs + [next] else outs[i := if aggregate then Merged(outs[i], next) else next]
  }

  function AddAll(outs: seq<Completion>, nexts: seq<Completion>, aggregate: bool): seq<Completion> {
    if nexts == [] then outs
    else AddOne(AddAll(outs, nexts[..|nexts| - 1], aggregate), nexts[|nexts| - 1], aggregate)
  }

  predicate OneOk(outs: seq<Completion>, next: Completion, aggregate: bool) {
    var i := Find(outs, next.index);
    i == |outs| || !aggregate || Mergeable(outs[i], next)
  }

  /** No merge along the way trips the assertion. */
  predicate AllOk(outs: seq<Completion>, nexts: seq<Completion>, aggregate: bool) {
    nexts == []
    || (AllOk(outs, nexts[..|nexts| - 1], aggregate)
        && OneOk(AddAll(outs, nexts[..|nexts| - 1], aggregate), nexts[|nexts| - 1], aggregate))
  }

  /** A completion whose merge trips the assertion has already grown its text and tokens. */
  function PartlyMerged(c: Completion, next: Completion): Completion {
    c.(text := c.text + next.text, tokens := c.tokens + next.tokens)
  }

  function AddBroken(outs: seq<Completion>, next: Completion): seq<Completion>
    requires !OneOk(outs, next, true)
  {
    var i := Find(outs, next.index);
    outs[i := PartlyMerged(outs[i], next)]
  }

  /** What a failing merge leaves behind: all completions before the failing one merged, that one partly. */
  function Halted(outs: seq<Completion>, nexts: seq<Completion>): seq<Completion>
    requires !AllOk(outs, nexts, true)
  {
    var (front, last) := (nexts[..|nexts| - 1], nexts[|nexts| - 1]);
    if AllOk(outs, front, true) then AddBroken(AddAll(outs, front, true), last) else Halted(outs, front)
  }

  // ----- the independent reference: group by index, in order of first arrival

  function FirstIndices(all: seq<Completion>): seq<int> {
    if all == [] then []
    else
      var (front, x) := (FirstIndices(all[..|all| - 1]), all[|all| - 1].index);
      if x in front then front else front + [x]
  }

  function Of(all: seq<Completion>, x: int): (r: seq<Completion>)
    ensures forall i :: 0 <= i < |r| ==> r[i].index == x
  {
    if all == [] then []
    else
      var (front, last) := (Of(all[..|all| - 1], x), all[|all| - 1]);
      if last.index == x then front + [last] else front
  }

  function JoinText(cs: seq<Completion>): string {
    if cs == [] then "" else JoinText(cs[..|cs| - 1]) + cs[|cs| - 1].text
  }

  function JoinTokens(cs: seq<Completion>): seq<int> {
    if cs == [] then [] else JoinTokens(cs[..|cs| - 1]) + cs[|cs| - 1].tokens
  }

  function JoinLogprobs(cs: seq<Completion>): seq<int> {
    if cs == [] then []
    else JoinLogprobs(cs[..|cs| - 1]) + if cs[|cs| - 1].logprobs.Some? then cs[|cs| - 1].logprobs.value else []
  }

  /** All deltas of one index put together: concatenated texts and tokens, the last reasons. */
  function Together(cs: seq<Completion>): Completion
    requires cs != []
  {
    var last := cs[|cs| - 1];
    Completion(cs[0].index, JoinText(cs), JoinTokens(cs), if cs[0].logprobs.Some? then Some(JoinLogprobs(cs)) else None,
               last.cumulative, last.finishReason, last.stopReason)
  }

  /** Logprobs arrive for an index only if its first output carried a list. */
  ghost predicate LogprobsFromTheStart(all: seq<Completion>) {
    forall j :: 0 <= j < |all| && Truthy(all[j].logprobs) ==>
      Of(all, all[j].index) != [] && Of(all, all[j].index)[0].logprobs.Some?
  }

  // ----- the merge against the reference

  lemma {:induction false} FirstIndicesMeans(all: seq<Completion>)
    ensures forall x :: x in FirstIndices(all) <==> Of(all, x) != []
    ensures forall i, j :: 0 <= i < j < |FirstIndices(all)| ==> FirstIndices(all)[i] != FirstIndices(all)[j]
    ensures forall i :: 0 <= i < |all| ==> all[i].index in FirstIndices(all)
  {
    if all != [] {
      FirstIndicesMeans(all[..|all| - 1]);
    }
  }

  lemma {:induction false} TogetherGrows(cs: seq<Completion>, next: Completion)
    requires cs != [] && Mergeable(Together(cs), next)
    ensures Together(cs + [next]) == Merged(Together(cs), next)
  {
    assert (cs + [next])[..|cs|] == cs;
    assert JoinLogprobs(cs) + [] == JoinLogprobs(cs);
  }

  /** What one index ends up holding: everything that arrived for it, or just the last completion. */
  function Summary(cs: seq<Completion>, aggregate: bool): (r: Completion)
    requires cs != [] && forall i :: 0 <= i < |cs| ==> cs[i].index == cs[0].index
    ensures r.index == cs[0].index
  {
    if aggregate then Together(cs) else cs[|cs| - 1]
  }

  /** One completion per index, in order of first arrival, each the summary of its index. */
  ghost predicate Grouped(r: seq<Completion>, all: seq<Completion>, aggregate: bool) {
    var xs := FirstIndices(all);
    && |r| == |xs|
    && forall i :: 0 <= i < |r| ==> Of(all, xs[i]) != [] && r[i] == Summary(Of(all, xs[i]), aggregate)
  }

  /** In a grouped list, searching for an index finds its group or nothing. */
  lemma {:induction false} FindInGroups(r: seq<Completion>, all: seq<Completion>, aggregate: bool, x: int)
    requires Grouped(r, all, aggregate)
    ensures var (i, xs) := (Find(r, x), FirstIndices(all));
            && (i == |r| <==> x !in xs)
            && (i < |r| ==> xs[i] == x)
  {
    var xs := FirstIndices(all);
    forall k | 0 <= k < |xs| ensures r[k].index == xs[k] {
      assert r[k] == Summary(Of(all, xs[k]), aggregate);
    }
  }

  /** The fold over any stream is the grouping: with aggregation each index holds the in-order concatenation of its
      deltas, without it the last completion of each index wins. */
  lemma {:induction false} FoldIsGrouping(all: seq<Completion>, aggregate: bool)
    requires AllOk([], all, aggregate)
    ensures Grouped(AddAll([], all, aggregate), all, aggregate)
  {
    hide Grouped, AllOk, OneOk, AddAll, AddOne;
    if all == [] {
      NothingIsGrouped(aggregate);
    } else {
      var (front, last) := (all[..|all| - 1], all[|all| - 1]);
      LastAdded(all, aggregate);
      FoldIsGrouping(front, aggregate);
      OneMoreIsGrouped(AddAll([], front, aggregate), front, last, aggregate);
      assert all == front + [last];
    }
  }

  lemma {:induction false} NothingIsGrouped(aggregate: bool)
    ensures Grouped(AddAll([], [], aggregate), [], aggregate)
  {
  }

  lemma {:induction false} LastAdded(all: seq<Completion>, aggregate: bool)
    requires all != [] && AllOk([], all, aggregate)
    ensures var (front, last) := (all[..|all| - 1], all[|all| - 1]);
            && AllOk([], front, aggregate)
            && OneOk(AddAll([], front, aggregate), last, aggregate)
            && AddAll([], all, aggregate) == AddOne(AddAll([], front, aggregate), last, aggregate)
  {
  }

  lemma {:induction false} OneMoreIsGrouped(r: seq<Completion>, front: seq<Completion>, last: Completion,
                                            aggregate: bool)
    requires Grouped(r, front, aggregate) && OneOk(r, last, aggregate)
    ensures Grouped(AddOne(r, last, aggregate), front + [last], aggregate)
  {
    hide Find, FirstIndices, Together, Merged, Of, Summary, Mergeable;
    var (all, i, xs) := (front + [last], Find(r, last.index), FirstIndices(front));
    FindInGroups(r, front, aggregate, last.index);
    FirstIndicesStep(front, last);
    FirstIndicesMeans(front);
    var r' := AddOne(r, last, aggregate);
    var xs' := FirstIndices(all);
    assert |r'| == |xs'|;
    forall k | 0 <= k < |xs'| ensures Of(all, xs'[k]) != [] && r'[k] == Summary(Of(all, xs'[k]), aggregate) {
      OfStep(front, last, xs'[k]);
      if k == i && i < |r| {
        assert xs'[k] == last.index && r[i] == Summary(Of(front, last.index), aggregate);
        SummaryStep(Of(front, last.index), last, aggregate);
      } else if k == i {
        assert xs'[k] == last.index && Of(front, last.index) == [];
        assert [] + [last] == [last];
        SummaryStep([], last, aggregate);
      } else {
        assert r'[k] == r[k] && xs'[k] == xs[k] != last.index;
        assert Of(front, xs[k]) + [] == Of(front, xs[k]);
      }
    }
  }

  /** One more completion for an index extends its summary by one merge. */
  lemma {:induction false} SummaryStep(cs: seq<Completion>, last: Completion, aggregate: bool)
    requires forall i :: 0 <= i < |cs| ==> cs[i].index == last.index
    requires cs != [] && aggregate ==> Mergeable(Summary(cs, true), last)
    ensures Summary(cs + [last], aggregate)
            == if cs != [] && aggregate then Merged(Summary(cs, true), last) else Summary([last], aggregate)
    ensures Summary([last], aggregate) == last
  {
    hide Together, Merged, Mergeable;
    assert cs == [] ==> cs + [last] == [last];
    TogetherOne(last);
    if cs != [] && aggregate {
      TogetherGrows(cs, last);
    }
  }

  lemma {:induction false} TogetherOne(c: Completion)
    ensures Together([c]) == c
  {
    assert [c][..0] == [];
    assert JoinText([c]) == "" + c.text == c.text;
    assert JoinTokens([c]) == [] + c.tokens == c.tokens;
    assert c.logprobs.Some? ==> JoinLogprobs([c]) == [] + c.logprobs.value == c.logprobs.value;
  }

  lemma {:induction false} FirstIndicesStep(front: seq<Completion>, last: Completion)
    ensures var xs := FirstIndices(front);
            FirstIndices(front + [last]) == if last.index in xs then xs else xs + [last.index]
  {
    assert (front + [last])[..|front|] == front;
  }

  lemma {:induction false} OfStep(front: seq<Completion>, last: Completion, x: int)
    ensures Of(front + [last], x) == Of(front, x) + if last.index == x then [last] else []
  {
    assert (front + [last])[..|front|] == front;
  }

  /** The merge's assertion holds along the whole stream exactly when logprobs are there from the start. */
  lemma {:induction false} AssertionHoldsIff(all: seq<Completion>)
    ensures AllOk([], all, true) <==> LogprobsFromTheStart(all)
  {
    if all != [] {
      var (front, last) := (all[..|all| - 1], all[|all| - 1]);
      AssertionHoldsIff(front);
      FirstsPersist(all);
      if AllOk([], front, true) {
        FoldIsGrouping(front, true);
        FirstIndicesMeans(front);
        FindInGroups(AddAll([], front, true), front, true, last.index);
      }
    }
  }

  /** Logprobs that start late trip it: an index whose first output carried no list gets one. */
  lemma {:induction false} LateLogprobsFail(all: seq<Completion>)
    requires all == [Completion(0, "a", [1], None, None, None, None),
                     Completion(0, "b", [2], Some([3]), None, Some("stop"), None)]
    ensures !AllOk([], all, true) && !LogprobsFromTheStart(all)
    ensures Halted([], all) == [Completion(0, "ab", [1, 2], None, None, None, None)]
  {
    assert all[..1] == [all[0]] && all[..1][..0] == [];
    assert AddAll([], all[..1], true) == [all[0]];
    AssertionHoldsIff(all);
    assert Halted([], all) == AddBroken([all[0]], all[1]) == [PartlyMerged(all[0], all[1])];
    assert "a" + "b" == "ab" && [1] + [2] == [1, 2];
  }

  /** One more completion does not change which output came first for the indices already seen. */
  lemma {:induction false} FirstsPersist(all: seq<Completion>)
    requires all != []
    ensures var (front, last) := (all[..|all| - 1], all[|all| - 1]);
            && (forall x :: Of(front, x) != [] ==> Of(all, x) != [] && Of(all, x)[0] == Of(front, x)[0])
            && (Of(front, last.index) == [] ==> Of(all, last.index) == [last])
            && (forall j :: 0 <= j < |front| ==> Of(front, front[j].index) != [] && front[j] == all[j])
            && (LogprobsFromTheStart(all) <==>
                  (LogprobsFromTheStart(front) && (Truthy(last.logprobs) ==> Of(all, last.index)[0].logprobs.Some?)))
  {
    var front := all[..|all| - 1];
    FirstIndicesMeans(front);
    forall j | 0 <= j < |front| ensures Of(front, front[j].index) != [] {
      assert front[j].index in FirstIndices(front);
    }
  }

  /** Starting from completions with distinct indices is the same as having received them first. */
  lemma {:induction false} StartIsPrefix(outs: seq<Completion>, nexts: seq<Completion>, aggregate: bool)
    requires forall i, j :: 0 <= i < j < |outs| ==> outs[i].index != outs[j].index
    ensures AddAll(outs, nexts, aggregate) == AddAll([], outs + nexts, aggregate)
    ensures AllOk(outs, nexts, aggregate) <==> AllOk([], outs + nexts, aggregate)
    decreases |nexts|
  {
    if nexts != [] {
      assert (outs + nexts)[..|outs + nexts| - 1] == outs + nexts[..|nexts| - 1];
      StartIsPrefix(outs, nexts[..|nexts| - 1], aggregate);
    } else {
      assert outs + [] == outs;
      DistinctUnmerged(outs, aggregate);
    }
  }

  lemma {:induction false} DistinctUnmerged(outs: seq<Completion>, aggregate: bool)
    requires forall i, j :: 0 <= i < j < |outs| ==> outs[i].index != outs[j].index
    ensures AddAll([], outs, aggregate) == outs && AllOk([], outs, aggregate)
  {
    if outs != [] {
      var (front, last) := (outs[..|outs| - 1], outs[|outs| - 1]);
      DistinctUnmerged(front, aggregate);
      assert outs == front + [last];
    }
  }

  // ----- whole streams

  datatype Delta = Delta(outputs: seq<Completion>, finished: bool, kvTransferParams: Option<int>)

  /** Adding each delta of a stream in turn to a first output. */
  function Stream(first: Delta, deltas: seq<Delta>, aggregate: bool): Delta {
    if deltas == [] then first
    else
      var (s, d) := (Stream(first, deltas[..|deltas| - 1], aggregate), deltas[|deltas| - 1]);
      Delta(AddAll(s.outputs, d.outputs, aggregate), s.finished || d.finished, d.kvTransferParams)
  }

  /** Every completion of the stream, in order of arrival. */
  function Arrivals(first: Delta, deltas: seq<Delta>): seq<Completion> {
    if deltas == [] then first.outputs
    else Arrivals(first, deltas[..|deltas| - 1]) + deltas[|deltas| - 1].outputs
  }

  lemma {:induction false} AddAllConcat(outs: seq<Completion>, a: seq<Completion>, b: seq<Completion>, aggregate: bool)
    ensures AddAll(outs, a + b, aggregate) == AddAll(AddAll(outs, a, aggregate), b, aggregate)
    ensures AllOk(outs, a + b, aggregate)
            <==> AllOk(outs, a, aggregate) && AllOk(AddAll(outs, a, aggregate), b, aggregate)
    decreases |b|
  {
    if b == [] {
      assert a + b == a;
    } else {
      assert (a + b)[..|a + b| - 1] == a + b[..|b| - 1];
      AddAllConcat(outs, a, b[..|b| - 1], aggregate);
    }
  }

  /** A stream merges without tripping the assertion when logprobs are there from the start; the result then groups
      all arrivals by index, `finished` is the disjunction, and the last transfer parameters win. */
  lemma {:induction false} StreamIsGrouping(first: Delta, deltas: seq<Delta>, aggregate: bool)
    requires forall i, j :: 0 <= i < j < |first.outputs| ==> first.outputs[i].index != first.outputs[j].index
    requires aggregate ==> LogprobsFromTheStart(Arrivals(first, deltas))
    ensures var r := Stream(first, deltas, aggregate);
            && Grouped(r.outputs, Arrivals(first, deltas), aggregate)
            && (r.finished <==> first.finished || exists i :: 0 <= i < |deltas| && deltas[i].finished)
            && (deltas != [] ==> r.kvTransferParams == deltas[|deltas| - 1].kvTransferParams)
  {
    hide Grouped, LogprobsFromTheStart, AllOk;
    StreamIsFold(first, deltas, aggregate);
    AssertionHoldsIff(Arrivals(first, deltas));
    ReplacingIsAlwaysOk(Arrivals(first, deltas));
    FoldIsGrouping(Arrivals(first, deltas), aggregate);
  }

  lemma {:induction false} ReplacingIsAlwaysOk(all: seq<Completion>)
    ensures AllOk([], all, false)
  {
    if all != [] {
      ReplacingIsAlwaysOk(all[..|all| - 1]);
    }
  }

  lemma {:induction false} StreamIsFold(first: Delta, deltas: seq<Delta>, aggregate: bool)
    requires forall i, j :: 0 <= i < j < |first.outputs| ==> first.outputs[i].index != first.outputs[j].index
    ensures var r := Stream(first, deltas, aggregate);
            && r.outputs == AddAll([], Arrivals(first, deltas), aggregate)
            && (r.finished <==> first.finished || exists i :: 0 <= i < |deltas| && deltas[i].finished)
  {
    hide AddOne, AllOk, AddAll;
    if deltas == [] {
      DistinctUnmerged(first.outputs, aggregate);
    } else {
      StreamIsFold(first, deltas[..|deltas| - 1], aggregate);
      AddAllConcat([], Arrivals(first, deltas[..|deltas| - 1]), deltas[|deltas| - 1].outputs, aggregate);
    }
  }

  // ----- the merge in place

  class CompletionOutput {
    const index: int
    var text: string
    var tokens: seq<int>
    var logprobs: Option<seq<int>>
    var cumulative: Option<real>
    var finishReason: Option<string>
    var stopReason: Option<string>

    constructor (c: Completion)
      ensures Value() == c
    {
      index, text, tokens, logprobs := c.index, c.text, c.tokens, c.logprobs;
      cumulative, finishReason, stopReason := c.cumulative, c.finishReason, c.stopReason;
    }

    ghost function Value(): Completion
      reads this
    {
      Completion(index, text, tokens, logprobs, cumulative, finishReason, stopReason)
    }

    /** Appends a delta. `ok` is false where the source's assertion fails; text and tokens have then grown. */
    method Extend(next: CompletionOutput) returns (ok: bool)
      requires next != this
      modifies this
      ensures ok == Mergeable(old(Value()), next.Value())
      ensures Value() == if ok then Merged(old(Value()), next.Value()) else PartlyMerged(old(Value()), next.Value())
    {
      text := text + next.text;
      tokens := tokens + next.tokens;
      if next.logprobs.Some? && next.logprobs.value != [] {
        if logprobs.None? {
          return false;
        }
        logprobs := Some(logprobs.value + next.logprobs.value);
      }
      cumulative := next.cumulative;
      finishReason := next.finishReason;
      stopReason := next.stopReason;
      return true;
    }
  }

  ghost function Values(outs: seq<CompletionOutput>): (r: seq<Completion>)
    reads outs
    ensures |r| == |outs|
  {
    seq(|outs|, i requires 0 <= i < |outs| reads outs => outs[i].Value())
  }

  ghost predicate DistinctObjects(outs: seq<CompletionOutput>) {
    forall i, j :: 0 <= i < j < |outs| ==> outs[i] != outs[j]
  }

  class RequestOutput {
    var outputs: seq<CompletionOutput>
    var finished: bool
    var kvTransferParams: Option<int>

    constructor (outputs: seq<CompletionOutput>, finished: bool, kvTransferParams: Option<int>)
      ensures this.outputs == outputs && this.finished == finished && this.kvTransferParams == kvTransferParams
    {
      this.outputs, this.finished, this.kvTransferParams := outputs, finished, kvTransferParams;
    }

    /** The inner loop: finds the completion with the delta's index and grows or replaces it, or takes the delta
        over when there is none. */
    method AddCompletion(next: CompletionOutput, aggregate: bool) returns (ok: bool)
      requires next !in outputs && DistinctObjects(outputs)
      modifies this`outputs, outputs
      ensures ok == OneOk(old(Values(outputs)), old(next.Value()), aggregate)
      ensures ok ==> Values(outputs) == AddOne(old(Values(outputs)), old(next.Value()), aggregate)
      ensures !ok ==> aggregate && Values(outputs) == AddBroken(old(Values(outputs)), old(next.Value()))
      ensures DistinctObjects(outputs) && forall o :: o in outputs ==> o in old(outputs) || o == next
    {
      ghost var start := Values(outputs);
      var i := 0;
      while i < |outputs| && outputs[i].index != next.index
        invariant 0 <= i <= |outputs|
        invariant forall j :: 0 <= j < i ==> outputs[j].index != next.index
      {
        i := i + 1;
      }
      FindIsFirst(start, next.index, i);
      ok := true;
      if i == |outputs| {
        outputs := outputs + [next];
      } else if aggregate {
        ok := outputs[i].Extend(next);
      } else {
        outputs := outputs[i := next];
      }
      if ok {
        assert Values(outputs) == AddOne(start, next.Value(), aggregate);
      } else {
        assert Values(outputs) == AddBroken(start, next.Value());
      }
    }

    /** The outer loop over the delta's completions. */
    method AddCompletions(nexts: seq<CompletionOutput>, aggregate: bool) returns (ok: bool)
      requires DistinctObjects(outputs + nexts)
      modifies this`outputs, outputs, nexts
      ensures ok == AllOk(old(Values(outputs)), old(Values(nexts)), aggregate)
      ensures ok ==> Values(outputs) == AddAll(old(Values(outputs)), old(Values(nexts)), aggregate)
      ensures !ok ==> aggregate && Values(outputs) == Halted(old(Values(outputs)), old(Values(nexts)))
      ensures DistinctObjects(outputs) && forall o :: o in outputs ==> o in old(outputs) || o in nexts
    {
      hide AllOk, AddAll, OneOk, AddOne, AddBroken, Halted;
      ghost var (own, start, deltas) := (outputs, Values(outputs), Values(nexts));
      ok := true;
      var n := 0;
      DistinctParts(outputs, nexts);
      NothingAdded(start, deltas, aggregate);
      while n < |nexts|
        invariant 0 <= n <= |nexts|
        invariant forall j :: n <= j < |nexts| ==> nexts[j].Value() == deltas[j]
        invariant DistinctObjects(outputs) && forall o :: o in outputs ==> o in own || o in nexts[..n]
        invariant ok && AllOk(start, deltas[..n], aggregate)
        invariant Values(outputs) == AddAll(start, deltas[..n], aggregate)
      {
        TakenIsFresh(own, nexts, n, outputs);
        AddPrefix(start, deltas, n, aggregate);
        assert forall i :: 0 <= i < |outputs| ==> outputs[i] in own || outputs[i] in nexts;
        ok := AddCompletion(nexts[n], aggregate);
        if !ok {
          FailureStays(start, deltas, n);
          return;
        }
        n := n + 1;
      }
      assert deltas[..n] == deltas;
    }

    /** Merges a later output into this one. The delta's own objects may be taken over. */
    method Add(next: RequestOutput, aggregate: bool) returns (ok: bool)
      requires next != this && DistinctObjects(outputs + next.outputs)
      modifies this, outputs, next.outputs
      ensures finished == (old(finished) || next.finished)
      ensures kvTransferParams == next.kvTransferParams
      ensures ok == AllOk(old(Values(outputs)), old(Values(next.outputs)), aggregate)
      ensures ok ==> Values(outputs) == AddAll(old(Values(outputs)), old(Values(next.outputs)), aggregate)
      ensures !ok ==> aggregate && Values(outputs) == Halted(old(Values(outputs)), old(Values(next.outputs)))
      ensures DistinctObjects(outputs) && forall o :: o in outputs ==> o in old(outputs) || o in next.outputs
    {
      finished := finished || next.finished;
      kvTransferParams := next.kvTransferParams;
      ok := AddCompletions(next.outputs, aggregate);
    }
  }

  lemma {:induction false} FindIsFirst(outs: seq<Completion>, index: int, i: nat)
    requires i <= |outs| && (i < |outs| ==> outs[i].index == index)
    requires forall j :: 0 <= j < i ==> outs[j].index != index
    ensures Find(outs, index) == i
  {
  }

  lemma {:induction false} DistinctParts(own: seq<CompletionOutput>, next: seq<CompletionOutput>)
    requires DistinctObjects(own + next)
    ensures DistinctObjects(own) && DistinctObjects(next) && forall o :: o in own ==> o !in next
  {
    forall i, j | 0 <= i < j < |own| ensures own[i] != own[j] {
      assert (own + next)[i] != (own + next)[j];
    }
    forall i, j | 0 <= i < j < |next| ensures next[i] != next[j] {
      assert (own + next)[|own| + i] != (own + next)[|own| + j];
    }
    forall i, j | 0 <= i < |own| && 0 <= j < |next| ensures own[i] != next[j] {
      assert (own + next)[i] != (own + next)[|own| + j];
    }
  }

  lemma {:induction false} TakenIsFresh(own: seq<CompletionOutput>, next: seq<CompletionOutput>, n: nat,
                                        outs: seq<CompletionOutput>)
    requires n < |next| && DistinctObjects(next) && (forall o :: o in own ==> o !in next)
    requires forall o :: o in outs ==> o in own || o in next[..n]
    ensures forall j :: n <= j < |next| ==> next[j] !in outs
  {
  }

  lemma {:induction false} NothingAdded(start: seq<Completion>, deltas: seq<Completion>, aggregate: bool)
    ensures AddAll(start, deltas[..0], aggregate) == start && AllOk(start, deltas[..0], aggregate)
  {
  }

  lemma {:induction false} AddPrefix(start: seq<Completion>, deltas: seq<Completion>, n: nat, aggregate: bool)
    requires n < |deltas|
    ensures AddAll(start, deltas[..n + 1], aggregate)
            == AddOne(AddAll(start, deltas[..n], aggregate), deltas[n], aggregate)
    ensures AllOk(start, deltas[..n + 1], aggregate)
            <==> && AllOk(start, deltas[..n], aggregate)
                 && OneOk(AddAll(start, deltas[..n], aggregate), deltas[n], aggregate)
  {
    assert deltas[..n + 1][..n] == deltas[..n];
  }

  /** Once a completion fails, the rest of the list does not matter. */
  lemma {:induction false} FailureStays(start: seq<Completion>, deltas: seq<Completion>, n: nat)
    requires n < |deltas| && AllOk(start, deltas[..n], true)
    requires !OneOk(AddAll(start, deltas[..n], true), deltas[n], true)
    ensures !AllOk(start, deltas, true)
    ensures Halted(start, deltas) == AddBroken(AddAll(start, deltas[..n], true), deltas[n])
    decreases |deltas|
  {
    hide AddAll, OneOk, AddBroken;
    var front := deltas[..|deltas| - 1];
    if n < |front| {
      assert front[..n] == deltas[..n];
      FailureStays(start, front, n);
    }
  }

  /** A list that fails does so at one place: everything before it merges, and it is left partly merged. */
  lemma {:induction false} HaltsAtFirstFailure(start: seq<Completion>, deltas: seq<Completion>) returns (n: nat)
    requires !AllOk(start, deltas, true)
    ensures n < |deltas| && AllOk(start, deltas[..n], true)
    ensures !OneOk(AddAll(start, deltas[..n], true), deltas[n], true)
    ensures Halted(start, deltas) == AddBroken(AddAll(start, deltas[..n], true), deltas[n])
    decreases |deltas|
  {
    hide AddAll, OneOk, AddBroken;
    var front := deltas[..|deltas| - 1];
    if AllOk(start, front, true) {
      n := |front|;
    } else {
      n := HaltsAtFirstFailure(start, front);
      assert front[..n] == deltas[..n];
    }
  }
}
