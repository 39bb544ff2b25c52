/** Chunked data-parallel execution: per-rank token counts recovered from their running sum, cut into lockstep
    chunks. */
module DataParallel {
  import opened Arithmetic

  function Sum(s: seq<nat>): nat {
    if s == [] then 0 else Sum(s[..|s| - 1]) + s[|s| - 1]
  }

  /** The per-rank counts that `chunked_sizes` derives from the running sum. */
  function Differences(cu: seq<int>): (r: seq<int>)
    ensures |r| == |cu|
  {
    seq(|cu|, i requires 0 <= i < |cu| => if i > 0 then cu[i] - cu[i - 1] else cu[0])
  }

  lemma {:induction false} DifferencesUndoCumsum(tokens: seq<nat>)
    ensures Differences(Cumsum(tokens, Sum)) == tokens
  {
    forall i | 0 <= i < |tokens| ensures Differences(Cumsum(tokens, Sum))[i] == tokens[i] {
      assert Cumsum(tokens, Sum)[i] == Sum(tokens[..i + 1]);
      assert tokens[..i + 1][..i] == tokens[..i];
      if i == 0 {
        assert Sum(tokens[..0]) == 0;
      }
    }
  }

  /** One rank's size in one chunk; a rank that is done keeps step with a single token. */
  function LocalSize(n: int, m: int, chunk: nat): int {
    var left := if m < n - m * chunk then m else n - m * chunk;
    if left <= 0 then 1 else left
  }

  /** Fills the sizes of all ranks for one chunk. */
  method ComputeChunkedLocalNumTokens(tokens: seq<int>, m: int, chunk: nat) returns (sizes: array<int>)
    ensures fresh(sizes) && sizes.Length == |tokens|
    ensures forall i :: 0 <= i < |tokens| ==> sizes[i] == LocalSize(tokens[i], m, chunk)
  {
    sizes := new int[|tokens|](_ => -1);
    for i := 0 to |tokens|
      invariant forall j :: 0 <= j < i ==> sizes[j] == LocalSize(tokens[j], m, chunk)
    {
      var dpTokens := tokens[i];
      sizes[i] := if m < dpTokens - m * chunk then m else dpTokens - m * chunk;
      if sizes[i] <= 0 {
        sizes[i] := 1;
      }
    }
  }

  /** Chunks a rank of n tokens needs: n over m, rounded up. */
  function NumChunks(n: nat, m: nat): nat
    requires m > 0
  {
    (n + m - 1) / m
  }

  function TotalOver(n: nat, m: nat, chunks: nat): int {
    if chunks == 0 then 0 else TotalOver(n, m, chunks - 1) + LocalSize(n, m, chunks - 1)
  }

  lemma {:induction false} ChunkRange(n: nat, m: nat)
    requires m > 0
    ensures n <= m * NumChunks(n, m)
    ensures n > 0 ==> m * (NumChunks(n, m) - 1) < n
    ensures n == 0 ==> NumChunks(n, m) == 0
  {
    var c: int := NumChunks(n, m);
    assert n + m - 1 == m * c + (n + m - 1) % m;
    assert m * (c - 1) == m * c - m;
    if n == 0 {
      Small(m - 1, m);
    }
  }

  lemma {:induction false} Small(x: nat, m: nat)
    requires x < m
    ensures x / m == 0
  {
  }

  /** Before its last chunk a rank has more than one full chunk to go. */
  lemma {:induction false} SizeInChunk(n: nat, m: nat, chunk: nat)
    requires m > 0
    ensures 1 <= LocalSize(n, m, chunk) <= m
    ensures chunk + 1 < NumChunks(n, m) ==> LocalSize(n, m, chunk) == m
    ensures chunk + 1 == NumChunks(n, m) ==> LocalSize(n, m, chunk) == n - m * chunk
    ensures chunk >= NumChunks(n, m) ==> LocalSize(n, m, chunk) == 1
  {
    ChunkRange(n, m);
    var c: int := NumChunks(n, m);
    ProductOrder(m, chunk + 2, c);
    ProductOrder(m, c, chunk);
    assert m * (chunk + 2) == m * chunk + 2 * m;
    assert m * (c - 1) == m * c - m;
  }

  lemma {:induction false} PartialTotal(n: nat, m: nat, chunks: nat)
    requires m > 0 && chunks < NumChunks(n, m)
    ensures TotalOver(n, m, chunks) == m * chunks
  {
    if chunks > 0 {
      PartialTotal(n, m, chunks - 1);
      SizeInChunk(n, m, chunks - 1);
    }
  }

  /** A rank's chunk sizes add up to its tokens, and from then on it only keeps step. */
  lemma {:induction false} ChunksAddUp(n: nat, m: nat)
    requires m > 0
    ensures TotalOver(n, m, NumChunks(n, m)) == n
    ensures forall chunk: nat :: chunk >= NumChunks(n, m) ==> LocalSize(n, m, chunk) == 1
  {
    ChunkRange(n, m);
    if n > 0 {
      PartialTotal(n, m, NumChunks(n, m) - 1);
      SizeInChunk(n, m, NumChunks(n, m) - 1);
    }
    forall chunk: nat | chunk >= NumChunks(n, m) ensures LocalSize(n, m, chunk) == 1 {
      SizeInChunk(n, m, chunk);
    }
  }

  /** The metadata object: the sizes are set inside the context and cleared on leaving it. */
  class DPMetadata {
    const cuTokens: seq<nat>
    const maxTokens: nat
    var localSizes: seq<int>
    var active: bool

    constructor (tokens: seq<nat>)
      requires tokens != []
      ensures cuTokens == Cumsum(tokens, Sum) && !active
      ensures maxTokens in tokens && forall i :: 0 <= i < |tokens| ==> tokens[i] <= maxTokens
    {
      cuTokens := Cumsum(tokens, Sum);
      maxTokens := Largest(tokens);
      localSizes, active := [], false;
    }

    method EnterChunk(m: int, chunk: nat)
      modifies this
      ensures active && |localSizes| == |cuTokens|
      ensures forall tokens: seq<nat> :: cuTokens == Cumsum(tokens, Sum) ==>
                forall i :: 0 <= i < |tokens| ==> localSizes[i] == LocalSize(tokens[i], m, chunk)
    {
      var sizes := ComputeChunkedLocalNumTokens(Differences(cuTokens), m, chunk);
      localSizes, active := sizes[..], true;
      forall tokens: seq<nat> | cuTokens == Cumsum(tokens, Sum) ensures Differences(cuTokens) == tokens {
        DifferencesUndoCumsum(tokens);
      }
    }

    method LeaveChunk()
      modifies this
      ensures !active && localSizes == []
    {
      localSizes, active := [], false;
    }
  }

  function Largest(tokens: seq<nat>): (m: nat)
    requires tokens != []
    ensures m in tokens && forall i :: 0 <= i < |tokens| ==> tokens[i] <= m
  {
    if |tokens| == 1 then tokens[0]
    else
      var (rest, last) := (Largest(tokens[..|tokens| - 1]), tokens[|tokens| - 1]);
      if last > rest then last else rest
  }
}
