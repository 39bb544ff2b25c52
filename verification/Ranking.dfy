/** Index sequences: permutations, descending sorts and the pigeonhole facts about them. */
module Ranking {

  ghost predicate Distinct<T(!new)>(s: seq<T>) {
    forall i, j :: 0 <= i < j < |s| ==> s[i] != s[j]
  }

  ghost predicate Permutation(idx: seq<nat>, n: nat) {
    |idx| == n && (forall i :: 0 <= i < n ==> idx[i] < n) && Distinct(idx)
  }

  /** `idx` is the index output of a descending sort of p; ties may come in any order. */
  ghost predicate SortsDescending(idx: seq<nat>, p: seq<real>) {
    Permutation(idx, |p|) && forall i, j :: 0 <= i < j < |p| ==> p[idx[i]] >= p[idx[j]]
  }

  function Gather<T>(p: seq<T>, idx: seq<nat>): (r: seq<T>)
    requires forall i :: 0 <= i < |idx| ==> idx[i] < |p|
    ensures |r| == |idx|
  {
    seq(|idx|, i requires 0 <= i < |idx| => p[idx[i]])
  }

  function Without<T>(s: seq<T>, j: nat): (r: seq<T>)
    requires j < |s|
    ensures |r| == |s| - 1
    ensures forall i :: 0 <= i < |r| ==> r[i] == s[if i < j then i else i + 1]
  {
    s[..j] + s[j + 1..]
  }

  lemma {:induction false} GatherWithout<T>(p: seq<T>, idx: seq<nat>, j: nat)
    requires (forall i :: 0 <= i < |idx| ==> idx[i] < |p|) && j < |idx|
    ensures forall i :: 0 <= i < |idx| - 1 ==> Without(idx, j)[i] < |p|
    ensures Gather(p, Without(idx, j)) == Without(Gather(p, idx), j)
  {
  }

  lemma {:induction false} Pigeonhole(s: seq<nat>, n: nat)
    requires Distinct(s) && forall i :: 0 <= i < |s| ==> s[i] < n
    ensures |s| <= n
  {
    if s != [] {
      assert s[0] < n;
      if j :| 0 <= j < |s| && s[j] == n - 1 {
        Pigeonhole(Without(s, j), n - 1);
      } else {
        Pigeonhole(s, n - 1);
      }
    }
  }

  lemma {:induction false} Occurs(idx: seq<nat>, n: nat, t: nat) returns (i: nat)
    requires Permutation(idx, n) && t < n
    ensures i < n && idx[i] == t
  {
    if t !in idx {
      Pigeonhole(idx + [t], n);
    }
    i :| i < |idx| && idx[i] == t;
  }

  /** Where x belongs in a descending list. */
  lemma {:induction false} Place(s: seq<real>, x: real) returns (j: nat)
    requires forall a, b :: 0 <= a < b < |s| ==> s[a] >= s[b]
    ensures j <= |s|
    ensures forall a :: 0 <= a < |s| ==> (a < j ==> s[a] >= x) && (a >= j ==> x >= s[a])
  {
    if s == [] || s[|s| - 1] >= x {
      j := |s|;
    } else {
      j := Place(s[..|s| - 1], x);
    }
  }

  /** Every list can be sorted. */
  lemma {:induction false} SortExists(p: seq<real>) returns (order: seq<nat>)
    ensures SortsDescending(order, p)
  {
    order := [];
    if p != [] {
      var front := p[..|p| - 1];
      var o := SortExists(front);
      var j := Place(Gather(front, o), p[|p| - 1]);
      order := o[..j] + [|p| - 1] + o[j..];
      assert forall a :: 0 <= a < |o| ==> Gather(front, o)[a] == p[o[a]];
      InsertedSorts(p, o, j);
    }
  }

  lemma {:induction false} InsertedSorts(p: seq<real>, o: seq<nat>, j: nat)
    requires p != [] && SortsDescending(o, p[..|p| - 1]) && j <= |o|
    requires forall a :: 0 <= a < |o| ==>
               (a < j ==> p[o[a]] >= p[|p| - 1]) && (a >= j ==> p[|p| - 1] >= p[o[a]])
    ensures SortsDescending(o[..j] + [|p| - 1] + o[j..], p)
  {
    var (n, front, order) := (|p| - 1, p[..|p| - 1], o[..j] + [|p| - 1] + o[j..]);
    forall a | 0 <= a < |p| && a != j ensures order[a] == o[Skip(a, j)] && p[order[a]] == front[o[Skip(a, j)]] {
    }
    assert order[j] == n;
    forall a, b | 0 <= a < b < |p| ensures order[a] != order[b] && p[order[a]] >= p[order[b]] {
      assert a != j && b != j ==> front[o[Skip(a, j)]] >= front[o[Skip(b, j)]] && o[Skip(a, j)] != o[Skip(b, j)];
    }
  }

  function Skip(a: int, j: int): int {
    if a < j then a else a - 1
  }

  /** Of n distinct ranks, some rank is at least `n - 1`. */
  lemma {:induction false} LastRank(ranks: seq<nat>) returns (j: nat)
    requires ranks != [] && Distinct(ranks)
    ensures j < |ranks| && ranks[j] >= |ranks| - 1
  {
    if forall i :: 0 <= i < |ranks| ==> ranks[i] < |ranks| - 1 {
      Pigeonhole(ranks, |ranks| - 1);
    }
    j :| 0 <= j < |ranks| && ranks[j] >= |ranks| - 1;
  }

  /** The ranks at which distinct positions appear in a permutation. */
  lemma {:induction false} Ranks(idx: seq<nat>, n: nat, pick: seq<nat>) returns (ranks: seq<nat>)
    requires Permutation(idx, n) && Distinct(pick) && forall i :: 0 <= i < |pick| ==> pick[i] < n
    ensures |ranks| == |pick| && Distinct(ranks)
    ensures forall i :: 0 <= i < |pick| ==> ranks[i] < n && idx[ranks[i]] == pick[i]
  {
    ranks := [];
    if pick != [] {
      var last := Occurs(idx, n, pick[|pick| - 1]);
      ranks := Ranks(idx, n, pick[..|pick| - 1]);
      ranks := ranks + [last];
    }
  }

  function CountBelow(s: set<nat>, n: nat): nat {
    if n == 0 then 0 else CountBelow(s, n - 1) + if n - 1 in s then 1 else 0
  }

  lemma {:induction false} CountIsCardinality(s: set<nat>, n: nat)
    requires forall i :: i in s ==> i < n
    ensures |s| == CountBelow(s, n) <= n
  {
    if n == 0 {
      assert s == {};
    } else {
      var smaller := s - {n - 1};
      CountIsCardinality(smaller, n - 1);
      CountIgnoresTop(s, smaller, n - 1);
    }
  }

  lemma {:induction false} CountIgnoresTop(s: set<nat>, t: set<nat>, n: nat)
    requires forall i: nat :: i < n ==> (i in s <==> i in t)
    ensures CountBelow(s, n) == CountBelow(t, n) <= n
  {
    if n > 0 {
      CountIgnoresTop(s, t, n - 1);
    }
  }

  function ToSet(s: seq<nat>): set<nat> {
    if s == [] then {} else ToSet(s[..|s| - 1]) + {s[|s| - 1]}
  }

  lemma {:induction false} ToSetMeans(s: seq<nat>)
    ensures forall x :: x in ToSet(s) <==> x in s
    ensures Distinct(s) ==> |ToSet(s)| == |s|
  {
    if s != [] {
      ToSetMeans(s[..|s| - 1]);
      assert s == s[..|s| - 1] + [s[|s| - 1]];
    }
  }
}
