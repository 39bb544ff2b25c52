/** Top-p selection: sort, cumulative sum, forced first element, scatter back to token order. */
module TopP {
  import opened Ranking
  import opened Arithmetic

  function Sum(s: seq<real>): real {
    if s == [] then 0.0 else Sum(s[..|s| - 1]) + s[|s| - 1]
  }

  ghost predicate Positive(p: seq<real>) {
    forall i :: 0 <= i < |p| ==> p[i] > 0.0
  }

  /** Softmax gives a positive vector of mass one that keeps the order of its scores. */
  ghost predicate SoftmaxLike(x: seq<real>, p: seq<real>) {
    && |p| == |x| && Positive(p) && Sum(p) == 1.0
    && forall i, j :: 0 <= i < |x| && 0 <= j < |x| ==> (x[i] <= x[j] <==> p[i] <= p[j])
  }

  function SortedMask(c: seq<real>, topP: real): (m: seq<bool>)
    ensures |m| == |c|
  {
    seq(|c|, i requires 0 <= i < |c| => c[i] <= topP || i == 0)
  }

  /** Writes `src[i]` at position `idx[i]`, in order. */
  function Scatter(mask: seq<bool>, idx: seq<nat>, src: seq<bool>): (r: seq<bool>)
    requires |idx| == |src| && forall i :: 0 <= i < |idx| ==> idx[i] < |mask|
    ensures |r| == |mask|
  {
    if idx == [] then mask
    else Scatter(mask, idx[..|idx| - 1], src[..|src| - 1])[idx[|idx| - 1] := src[|src| - 1]]
  }

  /** The mask of length n over a region whose first `|p|` positions carry probabilities. */
  function TopPMask(p: seq<real>, idx: seq<nat>, topP: real, n: nat): (r: seq<bool>)
    requires Permutation(idx, |p|) && |p| <= n
    ensures |r| == n
  {
    Scatter(seq(n, _ => false), idx, SortedMask(Cumsum(Gather(p, idx), Sum), topP))
  }

  /** Length of the longest prefix of s with sum at most `topP`, but never less than one. */
  function PrefixCount(s: seq<real>, topP: real): (m: nat)
    requires s != []
    ensures 1 <= m <= |s|
  {
    if |s| == 1 || Sum(s) <= topP then |s| else PrefixCount(s[..|s| - 1], topP)
  }

  /** The first |p| entries of the mask keep exactly the m most probable tokens of the descending order `idx`, m as
      large as the mass limit allows but at least one; nothing else is kept. */
  ghost predicate KeepsLargestPrefix(mask: seq<bool>, p: seq<real>, idx: seq<nat>, topP: real, m: nat)
    requires Permutation(idx, |p|) && |p| <= |mask|
  {
    && 1 <= m <= |p|
    && (m > 1 ==> Sum(Gather(p, idx)[..m]) <= topP)
    && (m < |p| ==> Sum(Gather(p, idx)[..m + 1]) > topP)
    && (forall r :: 0 <= r < |p| ==> (mask[idx[r]] <==> r < m))
    && forall t :: |p| <= t < |mask| ==> !mask[t]
  }

  // ----- scatter and cumulative sums

  lemma {:induction false} ScatterAt(mask: seq<bool>, idx: seq<nat>, src: seq<bool>, i: nat)
    requires |idx| == |src| && (forall j :: 0 <= j < |idx| ==> idx[j] < |mask|) && Distinct(idx)
    requires i < |idx|
    ensures Scatter(mask, idx, src)[idx[i]] == src[i]
  {
    if i < |idx| - 1 {
      ScatterAt(mask, idx[..|idx| - 1], src[..|src| - 1], i);
    }
  }

  lemma {:induction false} ScatterElsewhere(mask: seq<bool>, idx: seq<nat>, src: seq<bool>, t: nat)
    requires |idx| == |src| && (forall j :: 0 <= j < |idx| ==> idx[j] < |mask|)
    requires t < |mask| && t !in idx
    ensures Scatter(mask, idx, src)[t] == mask[t]
  {
    if idx != [] {
      ScatterElsewhere(mask, idx[..|idx| - 1], src[..|src| - 1], t);
    }
  }

  lemma {:induction false} SumGrows(s: seq<real>, i: nat, j: nat)
    requires Positive(s) && i <= j <= |s|
    ensures Sum(s[..i]) <= Sum(s[..j])
    ensures i < j ==> Sum(s[..i]) < Sum(s[..j])
  {
    hide Sum;
    if i < j {
      SumGrows(s, i, j - 1);
      SumPrefix(s, j);
    }
  }

  /** `PrefixCount` is what its name says, stated without its recursion. */
  lemma {:induction false} PrefixCountIsLargest(s: seq<real>, topP: real)
    requires s != []
    ensures var m := PrefixCount(s, topP);
            && (m > 1 ==> Sum(s[..m]) <= topP)
            && forall n :: m < n <= |s| ==> Sum(s[..n]) > topP
  {
    assert s[..|s|] == s;
    if |s| > 1 && Sum(s) > topP {
      var shorter := s[..|s| - 1];
      PrefixCountIsLargest(shorter, topP);
      var m := PrefixCount(shorter, topP);
      assert shorter[..m] == s[..m];
      forall n | m < n <= |s| ensures Sum(s[..n]) > topP {
        if n < |s| {
          assert shorter[..n] == s[..n];
        }
      }
    }
  }

  // ----- the selected set

  /** The middle mask keeps exactly the tokens of the first `PrefixCount` ranks. */
  lemma {:induction false} TopPMaskIsPrefix(p: seq<real>, idx: seq<nat>, topP: real, n: nat, i: nat)
    requires p != [] && Positive(p) && SortsDescending(idx, p) && |p| <= n && i < |p|
    ensures TopPMask(p, idx, topP, n)[idx[i]] <==> i < PrefixCount(Gather(p, idx), topP)
  {
    hide Scatter, Sum, Cumsum, SortedMask;
    var s := Gather(p, idx);
    ScatterAt(seq(n, _ => false), idx, SortedMask(Cumsum(s, Sum), topP), i);
    MaskBySums(s, topP, i);
    PrefixCountIsLargest(s, topP);
    var m := PrefixCount(s, topP);
    if 0 < i < m {
      SumGrows(s, i + 1, m);
    }
  }

  lemma {:induction false} MaskBySums(s: seq<real>, topP: real, i: nat)
    requires i < |s|
    ensures SortedMask(Cumsum(s, Sum), topP)[i] <==> Sum(s[..i + 1]) <= topP || i == 0
  {
    assert Cumsum(s, Sum)[i] == Sum(s[..i + 1]);
  }

  /** The kept tokens of such a choice are the more probable ones. */
  lemma {:induction false} PrefixBeatsRest(mask: seq<bool>, p: seq<real>, idx: seq<nat>, topP: real, m: nat)
    requires SortsDescending(idx, p) && |p| <= |mask| && KeepsLargestPrefix(mask, p, idx, topP, m)
    ensures exists t :: 0 <= t < |p| && mask[t]
    ensures forall t, u :: 0 <= t < |p| && 0 <= u < |p| && mask[t] && !mask[u] ==> p[t] >= p[u]
    ensures forall t :: |p| <= t < |mask| ==> !mask[t]
  {
    hide Sum, Gather;
    assert mask[idx[0]];
    forall t, u | 0 <= t < |p| && 0 <= u < |p| && mask[t] && !mask[u] ensures p[t] >= p[u] {
      var i := Occurs(idx, |p|, t);
      var j := Occurs(idx, |p|, u);
    }
  }

  /** The mask of top-p is that choice. */
  lemma {:induction false} TopPMaskKeepsLargestPrefix(p: seq<real>, idx: seq<nat>, topP: real, n: nat)
    requires p != [] && Positive(p) && SortsDescending(idx, p) && |p| <= n
    ensures KeepsLargestPrefix(TopPMask(p, idx, topP, n), p, idx, topP, PrefixCount(Gather(p, idx), topP))
  {
    hide TopPMask, Sum, PrefixCount;
    PrefixCountIsLargest(Gather(p, idx), topP);
    forall r | 0 <= r < |p|
      ensures TopPMask(p, idx, topP, n)[idx[r]] <==> r < PrefixCount(Gather(p, idx), topP)
    {
      TopPMaskIsPrefix(p, idx, topP, n, r);
    }
    KeptBeatDropped(p, idx, topP, n);
  }

  /** At least one token is kept, every kept probability is at least every dropped one, and nothing outside the
      region that carries probabilities is kept. */
  lemma {:induction false} KeptBeatDropped(p: seq<real>, idx: seq<nat>, topP: real, n: nat)
    requires p != [] && Positive(p) && SortsDescending(idx, p) && |p| <= n
    ensures var mask := TopPMask(p, idx, topP, n);
            && (exists t :: 0 <= t < |p| && mask[t])
            && (forall t, u :: 0 <= t < |p| && 0 <= u < |p| && mask[t] && !mask[u] ==> p[t] >= p[u])
            && forall t :: |p| <= t < n ==> !mask[t]
  {
    var mask := TopPMask(p, idx, topP, n);
    TopPMaskIsPrefix(p, idx, topP, n, 0);
    forall t, u | 0 <= t < |p| && 0 <= u < |p| && mask[t] && !mask[u] ensures p[t] >= p[u] {
      var i := Occurs(idx, |p|, t);
      var j := Occurs(idx, |p|, u);
      TopPMaskIsPrefix(p, idx, topP, n, i);
      TopPMaskIsPrefix(p, idx, topP, n, j);
    }
    forall t | |p| <= t < n ensures !mask[t] {
      ScatterElsewhere(seq(n, _ => false), idx, SortedMask(Cumsum(Gather(p, idx), Sum), topP), t);
    }
  }

  /** For one sort order, raising `topP` only adds tokens. */
  lemma {:induction false} RaisingTopPOnlyAdds(p: seq<real>, idx: seq<nat>, low: real, high: real, n: nat)
    requires p != [] && Positive(p) && SortsDescending(idx, p) && |p| <= n && low <= high
    ensures forall t :: 0 <= t < n && TopPMask(p, idx, low, n)[t] ==> TopPMask(p, idx, high, n)[t]
  {
    PrefixCountIsLargest(Gather(p, idx), low);
    PrefixCountIsLargest(Gather(p, idx), high);
    KeptBeatDropped(p, idx, low, n);
    forall t | 0 <= t < n && TopPMask(p, idx, low, n)[t] ensures TopPMask(p, idx, high, n)[t] {
      var i := Occurs(idx, |p|, t);
      TopPMaskIsPrefix(p, idx, low, n, i);
      TopPMaskIsPrefix(p, idx, high, n, i);
    }
  }

  // ----- no other choice of as many tokens carries more mass

  /** No choice of as many distinct tokens as top-p keeps carries more probability mass than the kept ones. */
  lemma {:induction false} KeptMassIsMaximal(p: seq<real>, idx: seq<nat>, topP: real, pick: seq<nat>)
    requires p != [] && Positive(p) && SortsDescending(idx, p)
    requires Distinct(pick) && (forall i :: 0 <= i < |pick| ==> pick[i] < |p|)
    requires |pick| <= PrefixCount(Gather(p, idx), topP)
    ensures Sum(Gather(p, pick)) <= Sum(Gather(p, idx)[..PrefixCount(Gather(p, idx), topP)])
  {
    var s := Gather(p, idx);
    var ranks := Ranks(idx, |p|, pick);
    assert Gather(s, ranks) == Gather(p, pick);
    TopRanksDominate(s, ranks);
    SumGrows(s, |pick|, PrefixCount(s, topP));
  }

  lemma {:induction false} TopRanksDominate(s: seq<real>, ranks: seq<nat>)
    requires forall i, j :: 0 <= i < j < |s| ==> s[i] >= s[j]
    requires Distinct(ranks) && forall i :: 0 <= i < |ranks| ==> ranks[i] < |s|
    ensures |ranks| <= |s| && Sum(Gather(s, ranks)) <= Sum(s[..|ranks|])
    decreases |ranks|
  {
    hide Gather, Sum;
    if ranks != [] {
      var j := LastRank(ranks);
      GatherWithout(s, ranks, j);
      TopRanksDominate(s, Without(ranks, j));
      SumWithout(Gather(s, ranks), j);
      SumPrefix(s, |ranks|);
      GatherAt(s, ranks, j);
    }
  }

  lemma {:induction false} GatherAt(s: seq<real>, ranks: seq<nat>, j: nat)
    requires (forall i :: 0 <= i < |ranks| ==> ranks[i] < |s|) && j < |ranks|
    ensures Gather(s, ranks)[j] == s[ranks[j]]
  {
  }

  lemma {:induction false} SumPrefix(s: seq<real>, n: nat)
    requires 0 < n <= |s|
    ensures Sum(s[..n]) == Sum(s[..n - 1]) + s[n - 1]
  {
    assert s[..n][..n - 1] == s[..n - 1];
  }

  lemma {:induction false} SumWithout(s: seq<real>, j: nat)
    requires j < |s|
    ensures Sum(s) == Sum(Without(s, j)) + s[j]
  {
    if j == |s| - 1 {
      assert Without(s, j) == s[..j];
    } else {
      SumWithout(s[..|s| - 1], j);
      assert Without(s, j)[..|s| - 2] == Without(s[..|s| - 1], j);
    }
  }
}
