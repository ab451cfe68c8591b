/** How the new tokens of a request are cut into chunks that end on block boundaries
    (vllm/v1/attention/backends/mamba_attn.py). */
module ScanChunks {
  import opened Blocks

  /** The position at which block `k` begins. */
  function Start(k: nat, bs: nat): nat {
    k * bs
  }

  /** The block that holds position `n`. */
  function Block(n: nat, bs: nat): nat
    requires bs > 0
  {
    n / bs
  }

  /** The end of the chunk that begins at `n`: the next block boundary, or the end. */
  function ChunkEnd(n: nat, end: nat, bs: nat): nat
    requires bs > 0
  {
    Min(end, Start(Block(n, bs) + 1, bs))
  }

  lemma {:induction false} BlockOf(n: nat, bs: nat)
    requires bs > 0
    ensures Start(Block(n, bs), bs) <= n < Start(Block(n, bs) + 1, bs) == Start(Block(n, bs), bs) + bs
  {
  }

  /** The chunk boundaries from position `n` to `end`. */
  function Bounds(n: nat, end: nat, bs: nat): (bd: seq<nat>)
    requires bs > 0 && n <= end
    ensures |bd| >= 1
    decreases end - n
  {
    if n == end then [n]
    else
      BlockOf(n, bs);
      [n] + Bounds(ChunkEnd(n, end, bs), end, bs)
  }

  /** Chunk `c` is not empty, lies in block `k + c`, and ends with it unless it is the last. */
  ghost predicate InBlock(bd: seq<nat>, c: nat, bs: nat, k: nat)
    requires c < |bd| - 1
  {
    && Start(k + c, bs) <= bd[c] < bd[c + 1] <= Start(k + c + 1, bs)
    && (c < |bd| - 2 ==> bd[c + 1] == Start(k + c + 1, bs))
  }

  /** Boundaries from `n` to `end` whose chunks lie in the blocks from `k` on. */
  ghost predicate Chunked(bd: seq<nat>, n: nat, end: nat, bs: nat, k: nat) {
    && |bd| >= 1 && bd[0] == n && bd[|bd| - 1] == end
    && forall c :: 0 <= c < |bd| - 1 ==> InBlock(bd, c, bs, k)
  }

  lemma {:induction false} ChunkedCons(bd: seq<nat>, n: nat, e: nat, end: nat, bs: nat, k: nat)
    requires Chunked(bd, e, end, bs, k + 1)
    requires Start(k, bs) <= n < e <= Start(k + 1, bs)
    requires |bd| > 1 ==> e == Start(k + 1, bs)
    ensures Chunked([n] + bd, n, end, bs, k)
  {
    hide Start;
    var all := [n] + bd;
    forall c | 0 <= c < |all| - 1
      ensures InBlock(all, c, bs, k)
    {
      if c > 0 {
        assert InBlock(bd, c - 1, bs, k + 1);
      }
    }
  }

  lemma {:induction false} BlockAtStart(k: nat, bs: nat)
    requires bs > 0
    ensures Block(Start(k, bs), bs) == k
  {
    DivUnique(k * bs, bs, k, 0);
  }

  /** The state can be kept at every block boundary. */
  lemma {:induction false} BoundsChunked(n: nat, end: nat, bs: nat)
    requires bs > 0 && n <= end
    ensures Chunked(Bounds(n, end, bs), n, end, bs, Block(n, bs))
    decreases end - n
  {
    hide Start, Block;
    if n < end {
      BlockOf(n, bs);
      var e, k := ChunkEnd(n, end, bs), Block(n, bs);
      BoundsChunked(e, end, bs);
      if e < end {
        BlockAtStart(k + 1, bs);
      } else {
        assert Bounds(e, end, bs) == [e];
      }
      ChunkedCons(Bounds(e, end, bs), n, e, end, bs, k);
    }
  }

  // ---- The builder --------------------------------------------------------------------------

  /** The boundary the source computes for a first chunk that finishes a block. */
  lemma {:induction false} FirstChunk(n: nat, bs: nat)
    requires bs > 0 && n % bs != 0
    ensures CeilDiv(n, bs) * bs == Start(Block(n, bs) + 1, bs)
  {
    BlockOf(n, bs);
    var k, r := n / bs, n % bs;
    assert n + bs - 1 == (k + 1) * bs + (r - 1);
    DivUnique(n + bs - 1, bs, k + 1, r - 1);
  }

  /** From a block boundary on, the chunks are full until the end. */
  lemma {:induction false} NextChunk(n: nat, end: nat, bs: nat)
    requires bs > 0 && n % bs == 0 && n < end
    ensures ChunkEnd(n, end, bs) == n + Min(bs, end - n)
    ensures end - n > bs ==> ChunkEnd(n, end, bs) % bs == 0
  {
    BlockOf(n, bs);
    DivUnique(n + bs, bs, n / bs + 1, 0);
  }

  /** Where the chunks with boundaries `bd` begin in a buffer that holds position `bd[0]` at `base`. */
  function Starts(bd: seq<nat>, base: nat): (st: seq<int>)
    requires |bd| >= 1
    ensures |st| == |bd| - 1
  {
    seq(|bd| - 1, c requires 0 <= c < |bd| - 1 => base + bd[c] - bd[0])
  }

  lemma {:induction false} StartsCons(n: nat, end: nat, bs: nat, base: nat)
    requires bs > 0 && n < end
    ensures n < ChunkEnd(n, end, bs) <= end
    ensures Starts(Bounds(n, end, bs), base) ==
            [base] + Starts(Bounds(ChunkEnd(n, end, bs), end, bs), base + ChunkEnd(n, end, bs) - n)
  {
    hide Start, Block;
    BlockOf(n, bs);
    var e := ChunkEnd(n, end, bs);
    var rest := Bounds(e, end, bs);
    assert rest[0] == e;
    assert Bounds(n, end, bs) == [n] + rest;
  }

  lemma {:induction false} BoundsEnd(n: nat, bs: nat, base: nat)
    requires bs > 0
    ensures Starts(Bounds(n, n, bs), base) == []
  {
  }

  /** Where the chunks of a request with `m` new tokens begin.  Without new tokens there is an empty chunk if the
      computed ones end inside a block, and none otherwise. */
  function RequestStarts(n: nat, m: nat, bs: nat, base: nat): seq<int>
    requires bs > 0
  {
    if m > 0 then Starts(Bounds(n, n + m, bs), base) else if n % bs != 0 then [base] else []
  }

  /** The buffer positions at which the chunks of the first `r` requests begin. */
  function AllStarts(computed: seq<nat>, queryStart: seq<int>, bs: nat, r: nat): seq<int>
    requires Batch(computed, queryStart, bs) && r <= |computed|
  {
    if r == 0 then []
    else
      var n, m := computed[r - 1], queryStart[r] - queryStart[r - 1];
      AllStarts(computed, queryStart, bs, r - 1) + RequestStarts(n, m, bs, queryStart[r - 1] - queryStart[0])
  }

  /** A batch of prefill requests. */
  predicate Batch(computed: seq<nat>, queryStart: seq<int>, bs: nat) {
    && bs > 0
    && |queryStart| == |computed| + 1
    && (forall r {:trigger computed[r]} :: 0 <= r < |computed| ==> queryStart[0] <= queryStart[r] <= queryStart[r + 1])
  }

  /** Request `r` has new tokens. */
  predicate HasTokens(computed: seq<nat>, queryStart: seq<int>, bs: nat, r: nat)
    requires Batch(computed, queryStart, bs) && r < |computed|
  {
    queryStart[r] < queryStart[r + 1]
  }

  lemma {:induction false} CeilDivStep(r: nat, bs: nat)
    requires bs > 0 && r > 0
    ensures CeilDiv(r, bs) == CeilDiv(r - Min(bs, r), bs) + 1
  {
    if r <= bs {
      DivUnique(r + bs - 1, bs, 1, r - 1);
      DivUnique(bs - 1, bs, 0, bs - 1);
    } else {
      var q, m := (r - 1) / bs, (r - 1) % bs;
      assert r + bs - 1 == (q + 1) * bs + m;
      DivUnique(r + bs - 1, bs, q + 1, m);
    }
  }

  lemma {:induction false} CeilDivZero(r: nat, bs: nat)
    requires bs > 0
    ensures CeilDiv(r, bs) == 0 <==> r == 0
  {
    CeilDivBounds(r, bs);
    if r == 0 {
      DivUnique(bs - 1, bs, 0, bs - 1);
    }
  }

  /** `n` times the same request. */
  function Repeated(r: nat, n: nat): seq<nat> {
    seq(n, i => r)
  }

  lemma {:induction false} RepeatedNext(r: nat, n: nat)
    ensures Repeated(r, n + 1) == Repeated(r, n) + [r] && Repeated(r, 0) == []
  {
  }

  /** The chunks of request `r`: the body of the builder's loop over requests. */
  method RequestChunks(cu0: seq<int>, idx0: seq<nat>, base: nat, r: nat, n: nat, m: nat, bs: nat)
    returns (cu: seq<int>, idx: seq<nat>, pos: nat)
    requires bs > 0
    ensures cu == cu0 + RequestStarts(n, m, bs, base)
    ensures idx == idx0 + Repeated(r, |cu| - |cu0|)
    ensures pos == base + m
  {
    hide Start, Block, CeilDiv, Bounds, Starts, Repeated;
    ghost var end := n + m;
    cu, idx, pos := cu0, idx0, base;
    var left := m;
    ghost var cur := n;
    RepeatedNext(r, 0);
    if n % bs != 0 {
      FirstChunk(n, bs);
      BlockOf(n, bs);
      if m > 0 {
        StartsCons(n, end, bs, base);
      }
      cu, idx := cu + [pos], idx + [r];
      var len := Min(CeilDiv(n, bs) * bs - n, left);
      pos, left, cur := pos + len, left - len, cur + len;
      if left > 0 {
        BoundaryAligned(Block(n, bs) + 1, bs);
      }
    }
    ghost var total := cu0 + RequestStarts(n, m, bs, base);
    var nChunks := CeilDiv(left, bs);
    CeilDivZero(left, bs);
    for chunk := 0 to nChunks
      invariant left == end - cur && pos == base + cur - n && n <= cur <= end
      invariant left > 0 ==> cur % bs == 0
      invariant CeilDiv(left, bs) == nChunks - chunk
      invariant if m > 0 then cu + Starts(Bounds(cur, end, bs), pos) == total else cu == total
      invariant |cu0| <= |cu| && idx == idx0 + Repeated(r, |cu| - |cu0|)
    {
      CeilDivZero(left, bs);
      CeilDivStep(left, bs);
      NextChunk(cur, end, bs);
      StartsCons(cur, end, bs, pos);
      RepeatedNext(r, |cu| - |cu0|);
      cu, idx := cu + [pos], idx + [r];
      var len := Min(bs, left);
      pos, left, cur := pos + len, left - len, cur + len;
    }
    CeilDivZero(left, bs);
    BoundsEnd(end, bs, pos);
  }

  lemma {:induction false} BoundaryAligned(k: nat, bs: nat)
    requires bs > 0
    ensures Start(k, bs) % bs == 0
  {
    DivUnique(k * bs, bs, k, 0);
  }

  /** The cumulative chunk positions that the kernel is given. */
  function Cumulative(computed: seq<nat>, queryStart: seq<int>, bs: nat): seq<int>
    requires Batch(computed, queryStart, bs)
  {
    var total: int := queryStart[|computed|] - queryStart[0];
    AllStarts(computed, queryStart, bs, |computed|) + [total]
  }

  /** The request of each chunk of the first `r` requests. */
  function Owners(computed: seq<nat>, queryStart: seq<int>, bs: nat, r: nat): (owners: seq<nat>)
    requires Batch(computed, queryStart, bs) && r <= |computed|
    ensures |owners| == |AllStarts(computed, queryStart, bs, r)|
  {
    hide Bounds, Starts;
    if r == 0 then []
    else
      Owners(computed, queryStart, bs, r - 1) +
      Repeated(r - 1, |AllStarts(computed, queryStart, bs, r)| - |AllStarts(computed, queryStart, bs, r - 1)|)
  }

  /** `_compute_chunk_metadata` */
  method ComputeChunkMetadata(computed: seq<nat>, queryStart: seq<int>, bs: nat)
    returns (cu: seq<int>, idx: seq<nat>, last: seq<int>)
    requires Batch(computed, queryStart, bs)
    ensures cu == Cumulative(computed, queryStart, bs)
    ensures idx == Owners(computed, queryStart, bs, |computed|)
    ensures |last| == |computed|
    ensures forall r :: 0 <= r < |computed| ==> last[r] == |AllStarts(computed, queryStart, bs, r + 1)| - 1
  {
    hide Bounds, Starts, Repeated, RequestStarts;
    cu, idx, last := [], [], [];
    var pos: nat := 0;
    for r := 0 to |computed|
      invariant cu == AllStarts(computed, queryStart, bs, r) && idx == Owners(computed, queryStart, bs, r)
      invariant pos == queryStart[r] - queryStart[0]
      invariant |last| == r
      invariant forall q :: 0 <= q < r ==> last[q] == |AllStarts(computed, queryStart, bs, q + 1)| - 1
    {
      cu, idx, pos := RequestChunks(cu, idx, pos, r, computed[r], queryStart[r + 1] - queryStart[r], bs);
      last := last + [|cu| - 1];
    }
    cu := cu + [pos];
  }

  /** The chunks from the end of one request's to the end of the next one's belong to the latter. */
  lemma {:induction false} OwnerOf(computed: seq<nat>, queryStart: seq<int>, bs: nat, r: nat, q: nat, c: nat)
    requires Batch(computed, queryStart, bs) && r < q <= |computed|
    requires |AllStarts(computed, queryStart, bs, r)| <= c < |AllStarts(computed, queryStart, bs, r + 1)|
    ensures c < |Owners(computed, queryStart, bs, q)| && Owners(computed, queryStart, bs, q)[c] == r
  {
    hide Bounds, Starts, RequestStarts;
    if q == r + 1 {
    } else {
      OwnerOf(computed, queryStart, bs, r, q - 1, c);
    }
  }

  lemma {:induction false} AllStartsPrefix(computed: seq<nat>, queryStart: seq<int>, bs: nat, r: nat, q: nat)
    requires Batch(computed, queryStart, bs) && r <= q <= |computed|
    ensures AllStarts(computed, queryStart, bs, r) <= AllStarts(computed, queryStart, bs, q)
  {
    hide Bounds, Starts, RequestStarts;
    if r < q {
      AllStartsPrefix(computed, queryStart, bs, r, q - 1);
    }
  }

  lemma {:induction false} BoundsEnds(n: nat, end: nat, bs: nat)
    requires bs > 0 && n <= end
    ensures Bounds(n, end, bs)[0] == n && Bounds(n, end, bs)[|Bounds(n, end, bs)| - 1] == end
  {
    BoundsChunked(n, end, bs);
  }

  lemma {:induction false} BoundsNonEmpty(n: nat, end: nat, bs: nat)
    requires bs > 0 && n < end
    ensures |Bounds(n, end, bs)| >= 2 && Bounds(n, end, bs)[0] == n
  {
    BlockOf(n, bs);
  }

  /** The boundaries of the new tokens of request `r`. */
  function RequestBounds(computed: seq<nat>, queryStart: seq<int>, bs: nat, r: nat): seq<nat>
    requires Batch(computed, queryStart, bs) && r < |computed|
  {
    Bounds(computed[r], computed[r] + (queryStart[r + 1] - queryStart[r]), bs)
  }

  lemma {:induction false} AllStartsNext(computed: seq<nat>, queryStart: seq<int>, bs: nat, r: nat)
    requires Batch(computed, queryStart, bs) && r < |computed| && HasTokens(computed, queryStart, bs, r)
    ensures AllStarts(computed, queryStart, bs, r + 1) ==
            AllStarts(computed, queryStart, bs, r) +
            Starts(RequestBounds(computed, queryStart, bs, r), queryStart[r] - queryStart[0])
  {
    hide Bounds, Starts;
  }

  lemma {:induction false} ChunkStart(computed: seq<nat>, queryStart: seq<int>, bs: nat, r: nat, c: nat)
    requires Batch(computed, queryStart, bs) && r < |computed| && HasTokens(computed, queryStart, bs, r)
    requires c < |RequestBounds(computed, queryStart, bs, r)| - 1
    ensures var first := |AllStarts(computed, queryStart, bs, r)|;
            var bd := RequestBounds(computed, queryStart, bs, r);
            && first + c < |Cumulative(computed, queryStart, bs)| - 1
            && Cumulative(computed, queryStart, bs)[first + c] == queryStart[r] - queryStart[0] + bd[c] - bd[0]
  {
    hide Bounds, AllStarts;
    AllStartsNext(computed, queryStart, bs, r);
    AllStartsPrefix(computed, queryStart, bs, r + 1, |computed|);
  }

  lemma {:induction false} AllStartsStep(computed: seq<nat>, queryStart: seq<int>, bs: nat, r: nat)
    requires Batch(computed, queryStart, bs) && r < |computed| && HasTokens(computed, queryStart, bs, r)
    ensures |AllStarts(computed, queryStart, bs, r + 1)| ==
            |AllStarts(computed, queryStart, bs, r)| + |RequestBounds(computed, queryStart, bs, r)| - 1
  {
    hide Bounds;
  }

  /** How many chunks a request without new tokens has. */
  lemma {:induction false} EmptyStarts(computed: seq<nat>, queryStart: seq<int>, bs: nat, r: nat)
    requires Batch(computed, queryStart, bs) && r < |computed| && !HasTokens(computed, queryStart, bs, r)
    ensures |AllStarts(computed, queryStart, bs, r + 1)| ==
            |AllStarts(computed, queryStart, bs, r)| + (if computed[r] % bs != 0 then 1 else 0)
  {
    hide Bounds, Starts;
  }

  lemma {:induction false} NoStarts(computed: seq<nat>, queryStart: seq<int>, bs: nat)
    requires Batch(computed, queryStart, bs)
    ensures AllStarts(computed, queryStart, bs, 0) == []
  {
  }

  /** Chunks follow those of the first `r` requests exactly when a later request has new tokens, or its computed ones
      end inside a block. */
  lemma {:induction false} ChunksFollowIff(computed: seq<nat>, queryStart: seq<int>, bs: nat, r: nat)
    requires Batch(computed, queryStart, bs) && r <= |computed|
    ensures |AllStarts(computed, queryStart, bs, r)| < |AllStarts(computed, queryStart, bs, |computed|)| <==>
            exists q :: r <= q < |computed| && (HasTokens(computed, queryStart, bs, q) || computed[q] % bs != 0)
    decreases |computed| - r
  {
    hide Bounds, AllStarts;
    if r < |computed| {
      ChunksFollowIff(computed, queryStart, bs, r + 1);
      AllStartsPrefix(computed, queryStart, bs, r + 1, |computed|);
      if HasTokens(computed, queryStart, bs, r) {
        AllStartsStep(computed, queryStart, bs, r);
        BoundsNonEmpty(computed[r], computed[r] + (queryStart[r + 1] - queryStart[r]), bs);
      } else {
        EmptyStarts(computed, queryStart, bs, r);
      }
    }
  }

  lemma {:induction false} EmptyStart(computed: seq<nat>, queryStart: seq<int>, bs: nat, r: nat)
    requires Batch(computed, queryStart, bs) && r < |computed| && !HasTokens(computed, queryStart, bs, r)
    ensures var first, next := |AllStarts(computed, queryStart, bs, r)|, |AllStarts(computed, queryStart, bs, r + 1)|;
            || first == next
            || (first < |Cumulative(computed, queryStart, bs)|
                && Cumulative(computed, queryStart, bs)[first] == queryStart[r] - queryStart[0])
  {
    hide Bounds, Starts;
    AllStartsPrefix(computed, queryStart, bs, r + 1, |computed|);
  }

  /** After the chunks of the first `r` requests come those of a later one, or the end, at the tokens of request `r`. */
  lemma {:induction false} ChunkLast(computed: seq<nat>, queryStart: seq<int>, bs: nat, r: nat)
    requires Batch(computed, queryStart, bs) && r <= |computed|
    ensures |AllStarts(computed, queryStart, bs, r)| < |Cumulative(computed, queryStart, bs)|
    ensures Cumulative(computed, queryStart, bs)[|AllStarts(computed, queryStart, bs, r)|] ==
              queryStart[r] - queryStart[0]
    decreases |computed| - r
  {
    hide Bounds, AllStarts;
    if r == |computed| {
    } else if HasTokens(computed, queryStart, bs, r) {
      BoundsNonEmpty(computed[r], computed[r] + (queryStart[r + 1] - queryStart[r]), bs);
      ChunkStart(computed, queryStart, bs, r, 0);
    } else {
      EmptyStart(computed, queryStart, bs, r);
      ChunkLast(computed, queryStart, bs, r + 1);
    }
  }

  /** What the kernel reads for request `r`: its chunks run along the boundaries of its tokens. */
  lemma {:induction false} ChunkOfRequest(computed: seq<nat>, queryStart: seq<int>, bs: nat, r: nat, c: nat)
    requires Batch(computed, queryStart, bs) && r < |computed| && HasTokens(computed, queryStart, bs, r)
    requires c < |RequestBounds(computed, queryStart, bs, r)|
    ensures var first := |AllStarts(computed, queryStart, bs, r)|;
            var bd := RequestBounds(computed, queryStart, bs, r);
            && |AllStarts(computed, queryStart, bs, r + 1)| == first + |bd| - 1 < |Cumulative(computed, queryStart, bs)|
            && Cumulative(computed, queryStart, bs)[first + c] == queryStart[r] - queryStart[0] + bd[c] - bd[0]
  {
    hide Bounds, Cumulative, AllStarts;
    AllStartsStep(computed, queryStart, bs, r);
    ChunkLast(computed, queryStart, bs, r + 1);
    if c < |RequestBounds(computed, queryStart, bs, r)| - 1 {
      ChunkStart(computed, queryStart, bs, r, c);
    } else {
      BoundsEnds(computed[r], computed[r] + (queryStart[r + 1] - queryStart[r]), bs);
    }
  }
}
