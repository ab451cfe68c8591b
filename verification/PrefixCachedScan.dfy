/** The scan kernel with prefix-cached states: the state after each chunk goes to the cache slot of
    the block that the chunk ends in (vllm/_xpu_ops.py). */
module PrefixCachedScan {
  import opened Options
  import opened SelectiveScan
  import opened ScanResponse
  import opened Blocks
  import opened ScanChunks

  /** What one program of the kernel is given: its chunks and the row of the block table. */
  datatype Job = Job(first: int, count: int, cu: seq<int>, blockFirst: nat, blockLast: nat, bs: nat, table: seq<nat>)
  {
    /** The tokens before chunk `c`. */
    function Done(c: nat): int
      requires 0 <= first && first + c < |cu|
    {
      cu[first + c] - cu[first]
    }

    /** The position in the sequence at which the kernel believes the first chunk begins. */
    function Position(): int
      requires 0 <= first && first + 1 < |cu|
    {
      var tokens := Done(1);
      blockFirst * bs + (if count > 1 && tokens < bs then bs - tokens else 0)
    }

    /** The table index under which the state after chunk `c` is stored. */
    function StoreIndex(c: nat): int
      requires 0 <= first && c < count && first + count < |cu| && bs > 0
    {
      if c == count - 1 then blockLast else (Position() + Done(c + 1) - 1) / bs
    }

    /** The chunks are in order and cover the new tokens, and their slots exist.  A request without new tokens has no
        chunk, or an empty one. */
    predicate Runnable(len: nat, slots: nat) {
      && 0 <= first && 0 <= count && first + count < |cu| && bs > 0
      && (forall c, d :: 0 <= c < d <= count ==> Done(c) <= Done(d))
      && Done(count) == len
      && (forall c :: 0 <= c < count ==> 0 <= StoreIndex(c) < |table|)
      && (forall i :: 0 <= i < |table| ==> table[i] < slots)
    }
  }

  function JobOf(batch: nat, lastChunk: seq<int>, cu: seq<int>, blockFirst: nat, blockLast: nat, bs: nat,
                 table: seq<nat>): Job
    requires batch < |lastChunk|
  {
    var first := if batch == 0 then 0 else lastChunk[batch - 1] + 1;
    Job(first, lastChunk[batch] - first + 1, cu, blockFirst, blockLast, bs, table)
  }

  /** The cache after the first `c` chunks of a scan from state `s0`. */
  function Stored(l: Layer, s0: Vec, toks: seq<Token>, j: Job, ssm: seq<Vec>, c: nat): (r: seq<Vec>)
    requires j.Runnable(|toks|, |ssm|) && c <= j.count
    ensures |r| == |ssm|
  {
    if c == 0 then ssm
    else
      assert 0 <= j.StoreIndex(c - 1) < |j.table|;
      DoneBounds(j, |toks|, |ssm|, c);
      Stored(l, s0, toks, j, ssm, c - 1)[j.table[j.StoreIndex(c - 1)] := StateAt(l, s0, toks, j.Done(c))]
  }

  lemma {:induction false} DoneBounds(j: Job, len: nat, slots: nat, c: nat)
    requires j.Runnable(len, slots) && c <= j.count
    ensures 0 <= j.Done(c) <= len
  {
    assert j.Done(0) == 0;
    assert c > 0 ==> j.Done(0) <= j.Done(c);
    assert c < j.count ==> j.Done(c) <= j.Done(j.count);
  }

  /** What the kernel relies on at chunk `c`. */
  lemma {:induction false} AtChunk(l: Layer, s0: Vec, toks: seq<Token>, j: Job, ssm: seq<Vec>, c: nat)
    requires j.Runnable(|toks|, |ssm|) && c < j.count
    ensures 0 <= j.Done(c) <= j.Done(c + 1) <= |toks|
    ensures 0 <= j.StoreIndex(c) < |j.table| && j.table[j.StoreIndex(c)] < |ssm|
    ensures Stored(l, s0, toks, j, ssm, c + 1) ==
            Stored(l, s0, toks, j, ssm, c)[j.table[j.StoreIndex(c)] := StateAt(l, s0, toks, j.Done(c + 1))]
  {
    hide StateAt;
    DoneBounds(j, |toks|, |ssm|, c);
    DoneBounds(j, |toks|, |ssm|, c + 1);
    assert j.Done(c) <= j.Done(c + 1);
    assert 0 <= j.StoreIndex(c) < |j.table|;
  }

  /** What the kernel relies on before its loop. */
  lemma {:induction false} AtStart(l: Layer, s0: Vec, toks: seq<Token>, j: Job, ssm: seq<Vec>)
    requires j.Runnable(|toks|, |ssm|)
    ensures 0 <= j.first && 0 <= j.count && j.first + j.count < |j.cu| && j.bs > 0
    ensures j.Done(0) == 0 && j.Done(j.count) == |toks|
    ensures Stored(l, s0, toks, j, ssm, 0) == ssm
    ensures forall i :: 0 <= i < |j.table| ==> j.table[i] < |ssm|
  {
  }

  function Zeros(n: nat): Vec {
    seq(n, i => 0.0)
  }

  lemma {:induction false} ZerosBlank(n: nat)
    ensures Blank(Zeros(n)) && |Zeros(n)| == n
  {
  }

  /** One program of `_selective_scan_fwd_kernel` with the cache enabled.  A request without chunks at the end of a
      batch makes it load past the end of `cu`; whatever `stray` value that gives is not used. */
  method ScanSequence(l: Layer, u: seq<real>, b: seq<Vec>, c: seq<Vec>, delta: array<real>, z: array<real>,
                      ssm: array<Vec>, start: nat, len: nat, batch: nat, lastChunk: seq<int>, cu: seq<int>,
                      blockFirst: nat, blockLast: nat, initIdx: nat, bs: nat, table: seq<nat>, nullBlock: nat,
                      hasInit: bool, stray: int)
    requires start + len <= |u| == |b| == |c| == delta.Length && (l.hasZ ==> z.Length == |u|) && delta != z
    requires batch < |lastChunk| && initIdx < |table|
    requires table[initIdx] != nullBlock ==>
               JobOf(batch, lastChunk, cu, blockFirst, blockLast, bs, table).Runnable(len, ssm.Length)
    modifies delta, z, ssm
    ensures table[initIdx] == nullBlock ==>
              delta[..] == old(delta[..]) && z[..] == old(z[..]) && ssm[..] == old(ssm[..])
    ensures table[initIdx] != nullBlock ==>
              var j := JobOf(batch, lastChunk, cu, blockFirst, blockLast, bs, table);
              var s0 := if hasInit then old(ssm[table[initIdx]]) else Zeros(|l.a|);
              var toks := Toks(l, u, b, c, old(delta[..]), old(z[..]), start, len);
              && Overwritten(l, s0, toks, start, len, old(delta[..]), old(z[..]), delta[..], z[..])
              && ssm[..] == Stored(l, s0, toks, j, old(ssm[..]), j.count)
              && (!hasInit ==> HoldsResponse(l, toks, 0, len, start, delta[..], z[..]))
  {
    hide Overwritten, StateAt, Toks, Stored, Job.Runnable, HoldsResponse, Zeros, Blank;
    var loadSlot := table[initIdx];
    if loadSlot == nullBlock {
      return;
    }
    AtStart(l, Zeros(|l.a|), Toks(l, u, b, c, delta[..], z[..], start, len),
            JobOf(batch, lastChunk, cu, blockFirst, blockLast, bs, table), ssm[..]);
    var first := if batch == 0 then 0 else lastChunk[batch - 1] + 1;
    var nChunks := lastChunk[batch] - first + 1;
    ghost var j := JobOf(batch, lastChunk, cu, blockFirst, blockLast, bs, table);
    var state := if hasInit then ssm[loadSlot] else Zeros(|l.a|);
    ghost var s0, delta0, z0, ssm0 := state, delta[..], z[..], ssm[..];
    ghost var toks := Toks(l, u, b, c, delta0, z0, start, len);
    var firstTokens := (if first + 1 < |cu| then cu[first + 1] else stray) - cu[first];
    var offset := 0;
    if nChunks > 1 && firstTokens < bs {
      offset := bs - firstTokens;
    }
    var position := blockFirst * bs + offset;
    var processed := 0;
    ScanBegins(l, s0, toks, start, delta0, z0);
    AtStart(l, s0, toks, j, ssm0);
    for chunk := 0 to nChunks
      invariant processed == j.Done(chunk) && 0 <= processed <= len
      invariant nChunks > 0 ==> position == j.Position() + processed
      invariant state == StateAt(l, s0, toks, processed)
      invariant Overwritten(l, s0, toks, start, processed, delta0, z0, delta[..], z[..])
      invariant ssm[..] == Stored(l, s0, toks, j, ssm0, chunk)
    {
      AtChunk(l, s0, toks, j, ssm0, chunk);
      var tokens := cu[first + chunk + 1] - cu[first + chunk];
      state := ScanTokens(l, u, b, c, delta, z, start, processed, tokens, state, s0, toks, delta0, z0);
      processed := processed + tokens;
      var storeSlot;
      if chunk == nChunks - 1 {
        storeSlot := table[blockLast];
      } else {
        storeSlot := table[(position + tokens - 1) / bs];
      }
      ssm[storeSlot] := state;
      position := position + tokens;
    }
    if !hasInit {
      ZerosBlank(|l.a|);
      ScanHolds(l, s0, toks, start, delta0, z0, delta[..], z[..]);
    }
  }

  /** One program of the kernel without the prefix cache: the whole sequence is one chunk. */
  method ScanUncached(l: Layer, u: seq<real>, b: seq<Vec>, c: seq<Vec>, delta: array<real>, z: array<real>,
                      ssm: array<Vec>, start: nat, len: nat, slot: nat, nullBlock: Option<nat>, hasInit: bool)
    requires start + len <= |u| == |b| == |c| == delta.Length && (l.hasZ ==> z.Length == |u|) && delta != z
    requires nullBlock != Some(slot) ==> slot < ssm.Length
    modifies delta, z, ssm
    ensures nullBlock == Some(slot) ==> delta[..] == old(delta[..]) && z[..] == old(z[..]) && ssm[..] == old(ssm[..])
    ensures nullBlock != Some(slot) ==>
              var s0 := if hasInit then old(ssm[slot]) else Zeros(|l.a|);
              var toks := Toks(l, u, b, c, old(delta[..]), old(z[..]), start, len);
              && Overwritten(l, s0, toks, start, len, old(delta[..]), old(z[..]), delta[..], z[..])
              && ssm[..] == old(ssm[..])[slot := StateAt(l, s0, toks, len)]
              && (!hasInit ==>
                    HoldsResponse(l, toks, 0, len, start, delta[..], z[..]) && LanesAre(l, ssm[slot], toks, len))
  {
    hide Overwritten, StateAt, Toks, HoldsResponse, LanesAre, Zeros, Blank;
    if nullBlock == Some(slot) {
      return;
    }
    var state := if hasInit then ssm[slot] else Zeros(|l.a|);
    ghost var s0, delta0, z0 := state, delta[..], z[..];
    ghost var toks := Toks(l, u, b, c, delta0, z0, start, len);
    ScanBegins(l, s0, toks, start, delta0, z0);
    state := ScanTokens(l, u, b, c, delta, z, start, 0, len, state, s0, toks, delta0, z0);
    ssm[slot] := state;
    if !hasInit {
      ZerosBlank(|l.a|);
      ScanHolds(l, s0, toks, start, delta0, z0, delta[..], z[..]);
      StateLanes(l, s0, toks, len);
    }
  }

  // ---- The kernel on the metadata the builder makes -----------------------------------------

  lemma {:induction false} BlockIs(x: nat, bs: nat, k: nat)
    requires bs > 0 && Start(k, bs) <= x < Start(k + 1, bs)
    ensures Block(x, bs) == k && x / bs == k
  {
    DivUnique(x, bs, k, x - k * bs);
  }

  /** The block indices that the source computes for a request (`_compute_prefix_caching_block_indices`). */
  function FirstBlock(n: nat, bs: nat): int
    requires bs > 0
  {
    CeilDiv(n + 1, bs) as int - 1
  }

  function FinalBlock(end: nat, bs: nat): nat
    requires bs > 0
  {
    if CeilDiv(end, bs) == 0 then 0 else CeilDiv(end, bs) - 1
  }

  lemma {:induction false} BlockIndices(n: nat, bs: nat)
    requires bs > 0
    ensures FirstBlock(n, bs) == Block(n, bs)
    ensures FinalBlock(n, bs) == if n > 0 then Block(n - 1, bs) else 0
  {
    LastBlock(n + 1, bs);
    if n > 0 {
      LastBlock(n, bs);
    } else {
      CeilDivZero(0, bs);
    }
  }

  /** Chunks along boundaries `bd`, which lie in the blocks from `k` on. */
  ghost predicate Along(j: Job, bd: seq<nat>, k: nat) {
    && 0 <= j.first && 0 < j.count && j.count + 1 == |bd| && j.first + j.count < |j.cu| && j.bs > 0
    && (forall c {:trigger j.Done(c)} :: 0 <= c <= j.count ==> j.Done(c) + bd[0] == bd[c])
    && Chunked(bd, bd[0], bd[|bd| - 1], j.bs, k)
    && j.blockFirst == k
    && j.blockLast + 1 == k + j.count
  }

  /** With more than one chunk, the kernel knows where the first one begins. */
  lemma {:induction false} PositionIsStart(j: Job, bd: seq<nat>, k: nat)
    requires Along(j, bd, k) && j.count > 1
    ensures j.Position() == bd[0]
  {
    assert InBlock(bd, 0, j.bs, k);
    assert j.Done(1) + bd[0] == bd[1];
    NextStart(k, j.bs);
  }

  lemma {:induction false} NextStart(k: nat, bs: nat)
    ensures Start(k + 1, bs) == Start(k, bs) + bs && Start(k, bs) == k * bs
  {
  }

  /** The state after chunk `c` goes to the slot of block `k + c`. */
  lemma {:induction false} StoreIndexIsBlock(j: Job, bd: seq<nat>, k: nat, c: nat)
    requires Along(j, bd, k) && c < j.count
    ensures j.StoreIndex(c) == k + c
  {
    if c < j.count - 1 {
      PositionIsStart(j, bd, k);
      assert InBlock(bd, c, j.bs, k);
      assert j.Done(c + 1) + bd[0] == bd[c + 1];
      NextStart(k + c, j.bs);
      BlockIs(bd[c + 1] - 1, j.bs, k + c);
    }
  }

  /** A job along boundaries is one the kernel can run. */
  lemma {:induction false} AlongRunnable(j: Job, bd: seq<nat>, k: nat, slots: nat)
    requires Along(j, bd, k) && k + j.count <= |j.table|
    requires forall i :: 0 <= i < |j.table| ==> j.table[i] < slots
    ensures bd[0] <= bd[|bd| - 1] && j.Runnable(bd[|bd| - 1] - bd[0], slots)
  {
    forall c, d | 0 <= c < d <= j.count
      ensures j.Done(c) <= j.Done(d)
    {
      BoundsIncrease(bd, bd[0], bd[|bd| - 1], j.bs, k, c, d);
    }
    forall c | 0 <= c < j.count
      ensures 0 <= j.StoreIndex(c) < |j.table|
    {
      StoreIndexIsBlock(j, bd, k, c);
    }
    assert j.Done(0) <= j.Done(j.count);
  }

  lemma {:induction false} BoundsIncrease(bd: seq<nat>, n: nat, end: nat, bs: nat, k: nat, c: nat, d: nat)
    requires Chunked(bd, n, end, bs, k) && c < d < |bd|
    ensures bd[c] < bd[d]
  {
    hide Start;
    assert InBlock(bd, d - 1, bs, k);
    if c < d - 1 {
      BoundsIncrease(bd, n, end, bs, k, c, d - 1);
    }
  }

  /** The cache when the states along `bd` are stored to the blocks from `k` on. */
  function StoreBlocks(l: Layer, s0: Vec, toks: seq<Token>, bd: seq<nat>, k: nat, table: seq<nat>, ssm: seq<Vec>,
                       c: nat)
    : (r: seq<Vec>)
    requires c < |bd| && k + c <= |table|
    requires forall i :: 0 <= i < |bd| ==> bd[0] <= bd[i] <= bd[0] + |toks|
    requires forall i :: 0 <= i < |table| ==> table[i] < |ssm|
    ensures |r| == |ssm|
  {
    if c == 0 then ssm
    else StoreBlocks(l, s0, toks, bd, k, table, ssm, c - 1)[table[k + c - 1] := StateAt(l, s0, toks, bd[c] - bd[0])]
  }

  lemma {:induction false} StoredIsStoreBlocks(l: Layer, s0: Vec, toks: seq<Token>, j: Job, bd: seq<nat>, k: nat,
                                               ssm: seq<Vec>, c: nat)
    requires Along(j, bd, k) && j.Runnable(|toks|, |ssm|) && c <= j.count && k + j.count <= |j.table|
    requires forall i :: 0 <= i < |bd| ==> bd[0] <= bd[i] <= bd[0] + |toks|
    ensures Stored(l, s0, toks, j, ssm, c) == StoreBlocks(l, s0, toks, bd, k, j.table, ssm, c)
  {
    hide StateAt, Chunked, Job.StoreIndex;
    if c == 0 {
    } else {
      StoredIsStoreBlocks(l, s0, toks, j, bd, k, ssm, c - 1);
      StoreIndexIsBlock(j, bd, k, c - 1);
      assert j.Done(c) + bd[0] == bd[c];
    }
  }

  predicate Injective(table: seq<nat>) {
    forall a, b :: 0 <= a < b < |table| ==> table[a] != table[b]
  }

  /** What is in the slot of a block afterwards. */
  lemma {:induction false} StoreBlocksAt(l: Layer, s0: Vec, toks: seq<Token>, bd: seq<nat>, k: nat, table: seq<nat>,
                                         ssm: seq<Vec>, c: nat, b: nat)
    requires c < |bd| && k + c <= |table| && b < |table|
    requires forall i :: 0 <= i < |bd| ==> bd[0] <= bd[i] <= bd[0] + |toks|
    requires forall i :: 0 <= i < |table| ==> table[i] < |ssm|
    requires Injective(table)
    ensures StoreBlocks(l, s0, toks, bd, k, table, ssm, c)[table[b]] ==
            if k <= b < k + c then StateAt(l, s0, toks, bd[b - k + 1] - bd[0]) else ssm[table[b]]
  {
    hide StateAt;
    if c == 0 {
    } else {
      StoreBlocksAt(l, s0, toks, bd, k, table, ssm, c - 1, b);
      assert b != k + c - 1 ==> table[b] != table[k + c - 1];
    }
  }

  /** No other slot is written. */
  lemma {:induction false} StoreBlocksFrame(l: Layer, s0: Vec, toks: seq<Token>, bd: seq<nat>, k: nat, table: seq<nat>,
                                            ssm: seq<Vec>, c: nat, slot: nat)
    requires c < |bd| && k + c <= |table| && slot < |ssm|
    requires forall i :: 0 <= i < |bd| ==> bd[0] <= bd[i] <= bd[0] + |toks|
    requires forall i :: 0 <= i < |table| ==> table[i] < |ssm|
    requires slot !in table[k..]
    ensures StoreBlocks(l, s0, toks, bd, k, table, ssm, c)[slot] == ssm[slot]
  {
    hide StateAt;
    if c == 0 {
    } else {
      StoreBlocksFrame(l, s0, toks, bd, k, table, ssm, c - 1, slot);
      assert table[k + c - 1] == table[k..][c - 1];
    }
  }

  // ---- Requests and runs --------------------------------------------------------------------

  /** The job of request `r` of a batch, as the builder and the block indices give it. */
  function RequestJob(computed: seq<nat>, queryStart: seq<int>, lastChunk: seq<int>, bs: nat, r: nat,
                      table: seq<nat>): Job
    requires Batch(computed, queryStart, bs) && r < |computed| == |lastChunk|
  {
    var n, m := computed[r], queryStart[r + 1] - queryStart[r];
    BlockIndices(n, bs);
    JobOf(r, lastChunk, Cumulative(computed, queryStart, bs), FirstBlock(n, bs), FinalBlock(n + m, bs), bs, table)
  }

  lemma {:induction false} RequestJobAlong(computed: seq<nat>, queryStart: seq<int>, lastChunk: seq<int>, bs: nat,
                                           r: nat, table: seq<nat>)
    requires Batch(computed, queryStart, bs) && r < |computed| == |lastChunk| && HasTokens(computed, queryStart, bs, r)
    requires forall q :: 0 <= q < |computed| ==> lastChunk[q] == |AllStarts(computed, queryStart, bs, q + 1)| - 1
    ensures Along(RequestJob(computed, queryStart, lastChunk, bs, r, table),
                  RequestBounds(computed, queryStart, bs, r), Block(computed[r], bs))
  {
    hide Start, Block, Bounds, Cumulative, FirstBlock, FinalBlock, AllStarts;
    NoStarts(computed, queryStart, bs);
    var n, m := computed[r], queryStart[r + 1] - queryStart[r];
    var bd, k := RequestBounds(computed, queryStart, bs, r), Block(n, bs);
    var j := RequestJob(computed, queryStart, lastChunk, bs, r, table);
    BoundsNonEmpty(n, n + m, bs);
    BoundsChunked(n, n + m, bs);
    BlockIndices(n, bs);
    BlockIndices(n + m, bs);
    ChunkOfRequest(computed, queryStart, bs, r, 0);
    assert j.first == |AllStarts(computed, queryStart, bs, r)|;
    assert j.count == |bd| - 1;
    forall c {:trigger j.Done(c)} | 0 <= c <= j.count
      ensures j.Done(c) + bd[0] == bd[c]
    {
      ChunkOfRequest(computed, queryStart, bs, r, c);
    }
    assert InBlock(bd, |bd| - 2, bs, k);
    BlockIs(n + m - 1, bs, k + (|bd| - 2));
  }

  /** The cache holds, for a sequence of which `n` tokens are computed, the plain scan's state after
      each full block and after the last token. */
  ghost predicate Cached(l: Layer, all: seq<Token>, ssm: seq<Vec>, table: seq<nat>, bs: nat, n: nat)
    requires bs > 0
  {
    && n <= |all|
    && (forall i :: 0 <= i < |table| ==> table[i] < |ssm|)
    && (forall b {:trigger Start(b + 1, bs)} :: 0 <= b && Start(b + 1, bs) <= n ==>
          b < |table| && ssm[table[b]] == StateAt(l, Zeros(|l.a|), all, Start(b + 1, bs)))
    && (n > 0 ==> FinalBlock(n, bs) < |table| && ssm[table[FinalBlock(n, bs)]] == StateAt(l, Zeros(|l.a|), all, n))
  }

  /** The cache holds the numbers of the fresh sequence `all`, of which `n` tokens are computed: its state after each
      full block and after the last token. */
  ghost predicate CachesResponse(l: Layer, all: seq<Token>, ssm: seq<Vec>, table: seq<nat>, bs: nat, n: nat)
    requires bs > 0
  {
    && (forall b {:trigger Start(b + 1, bs)} :: 0 <= b && Start(b + 1, bs) <= n ==>
          b < |table| && table[b] < |ssm| && LanesAre(l, ssm[table[b]], all, Start(b + 1, bs)))
    && (n > 0 ==>
          && (n - 1) / bs < |table| && table[(n - 1) / bs] < |ssm|
          && LanesAre(l, ssm[table[(n - 1) / bs]], all, n))
  }

  lemma {:induction false} CachedNumbers(l: Layer, all: seq<Token>, ssm: seq<Vec>, table: seq<nat>, bs: nat, n: nat)
    requires bs > 0 && Cached(l, all, ssm, table, bs, n)
    ensures CachesResponse(l, all, ssm, table, bs, n)
  {
    hide StateAt, LanesAre, Zeros, Blank, FinalBlock, Start;
    ZerosBlank(|l.a|);
    forall b {:trigger Start(b + 1, bs)} | 0 <= b && Start(b + 1, bs) <= n
      ensures b < |table| && table[b] < |ssm| && LanesAre(l, ssm[table[b]], all, Start(b + 1, bs))
    {
      StateLanes(l, Zeros(|l.a|), all, Start(b + 1, bs));
    }
    if n > 0 {
      BlockIndices(n, bs);
      StateLanes(l, Zeros(|l.a|), all, n);
    }
  }

  /** The state with which a step that follows `n` computed tokens starts. */
  function LoadedState(l: Layer, ssm: seq<Vec>, table: seq<nat>, bs: nat, n: nat): Vec
    requires bs > 0 && FinalBlock(n, bs) < |table| && table[FinalBlock(n, bs)] < |ssm|
  {
    if n > 0 then ssm[table[FinalBlock(n, bs)]] else Zeros(|l.a|)
  }

  /** The states and outputs of a resumed scan are those of the plain scan. */
  lemma {:induction false} ResumedScan(l: Layer, all: seq<Token>, n: nat, m: nat, d: nat)
    requires n + m <= |all| && d <= m
    ensures var toks := all[n..n + m]; var s0 := StateAt(l, Zeros(|l.a|), all, n);
            && StateAt(l, s0, toks, d) == StateAt(l, Zeros(|l.a|), all, n + d)
            && (d < m ==> OutAt(l, s0, toks, d) == OutAt(l, Zeros(|l.a|), all, n + d))
            && (d < m ==> OutZAt(l, s0, toks, d) == OutZAt(l, Zeros(|l.a|), all, n + d))
  {
    hide StateAt, Emit;
    var toks, s0 := all[n..n + m], StateAt(l, Zeros(|l.a|), all, n);
    forall e | 0 <= e <= m
      ensures StateAt(l, s0, toks, e) == StateAt(l, Zeros(|l.a|), all, n + e)
    {
      Resume(l, Zeros(|l.a|), all, n, e);
      assert toks[..e] == all[n..][..e];
      StateAtPrefix(l, s0, toks, all[n..], e);
    }
  }

  /** The output of token `n + d`, in a scan of `m` tokens from state `s0`, is that of the plain scan of `all`. */
  predicate OutputAgrees(l: Layer, s0: Vec, all: seq<Token>, n: nat, m: nat, d: nat)
    requires d < m && n + m <= |all|
  {
    && OutAt(l, s0, all[n..n + m], d) == OutAt(l, Zeros(|l.a|), all, n + d)
    && OutZAt(l, s0, all[n..n + m], d) == OutZAt(l, Zeros(|l.a|), all, n + d)
  }

  /** Scanning tokens `n` to `n + m` of `all` from state `s0` gives the outputs of the plain scan of `all`. */
  ghost predicate StepOutputs(l: Layer, s0: Vec, all: seq<Token>, n: nat, m: nat) {
    n + m <= |all| && forall d :: 0 <= d < m ==> OutputAgrees(l, s0, all, n, m, d)
  }

  lemma {:induction false} StepOutputsAre(l: Layer, all: seq<Token>, n: nat, m: nat)
    requires n + m <= |all|
    ensures StepOutputs(l, StateAt(l, Zeros(|l.a|), all, n), all, n, m)
  {
    hide StateAt, OutAt, OutZAt;
    var s0 := StateAt(l, Zeros(|l.a|), all, n);
    forall d | 0 <= d < m
      ensures OutputAgrees(l, s0, all, n, m, d)
    {
      ResumedScan(l, all, n, m, d);
    }
  }

  lemma {:induction false} StartMonotone(a: nat, b: nat, bs: nat)
    requires a <= b
    ensures Start(a, bs) <= Start(b, bs)
  {
    assert (b - a) * bs >= 0;
  }

  lemma {:induction false} BoundsWithin(n: nat, m: nat, bs: nat)
    requires bs > 0 && m > 0
    ensures var bd := Bounds(n, n + m, bs);
            && |bd| >= 2 && bd[0] == n && Chunked(bd, n, n + m, bs, Block(n, bs))
            && (forall i :: 0 <= i < |bd| ==> n <= bd[i] <= n + m)
            && FinalBlock(n + m, bs) == Block(n, bs) + |bd| - 2
  {
    hide Start, Block, FinalBlock, Bounds;
    var bd, k := Bounds(n, n + m, bs), Block(n, bs);
    BoundsChunked(n, n + m, bs);
    BoundsNonEmpty(n, n + m, bs);
    forall i | 0 <= i < |bd|
      ensures n <= bd[i] <= n + m
    {
      BoundBetween(bd, n, n + m, bs, k, i);
    }
    LastChunkBlock(bd, n, n + m, bs, k);
  }

  lemma {:induction false} BoundBetween(bd: seq<nat>, n: nat, end: nat, bs: nat, k: nat, i: nat)
    requires Chunked(bd, n, end, bs, k) && i < |bd|
    ensures n <= bd[i] <= end
  {
    hide Start, InBlock;
    if i > 0 {
      BoundsIncrease(bd, n, end, bs, k, 0, i);
    }
    if i < |bd| - 1 {
      BoundsIncrease(bd, n, end, bs, k, i, |bd| - 1);
    }
  }

  lemma {:induction false} LastChunkBlock(bd: seq<nat>, n: nat, end: nat, bs: nat, k: nat)
    requires bs > 0 && Chunked(bd, n, end, bs, k) && |bd| >= 2
    ensures end > 0 && FinalBlock(end, bs) == k + |bd| - 2
  {
    hide Start, Block, FinalBlock;
    assert InBlock(bd, |bd| - 2, bs, k);
    BlockIndices(end, bs);
    BlockIs(end - 1, bs, k + (|bd| - 2));
  }

  /** A block boundary among the new tokens is the end of the chunk in that block. */
  lemma {:induction false} BoundaryIsChunkEnd(n: nat, m: nat, bs: nat, b: nat)
    requires bs > 0 && m > 0 && n < Start(b + 1, bs) <= n + m
    ensures var bd, k := Bounds(n, n + m, bs), Block(n, bs); k <= b < k + |bd| - 1 && bd[b - k + 1] == Start(b + 1, bs)
  {
    hide Start, Block, Bounds, FinalBlock;
    var bd, k := Bounds(n, n + m, bs), Block(n, bs);
    BoundsWithin(n, m, bs);
    BlockOf(n, bs);
    if b < k {
      StartMonotone(b + 1, k, bs);
    }
    assert InBlock(bd, |bd| - 2, bs, k);
    if b > k + |bd| - 2 {
      StartMonotone(k + (|bd| - 2) + 1, b, bs);
      NextStart(b, bs);
    }
    assert InBlock(bd, b - k, bs, k);
  }

  /** The cache after a prefill step of `m` tokens that follows `n` computed ones: as before if there are none. */
  function PrefillSsm(l: Layer, all: seq<Token>, ssm: seq<Vec>, table: seq<nat>, bs: nat, n: nat, m: nat): (r: seq<Vec>)
    requires bs > 0 && n + m <= |all| && FinalBlock(n + m, bs) < |table| && FinalBlock(n, bs) < |table|
    requires forall i :: 0 <= i < |table| ==> table[i] < |ssm|
    ensures |r| == |ssm|
  {
    if m == 0 then ssm
    else
      BoundsWithin(n, m, bs);
      var bd := Bounds(n, n + m, bs);
      StoreBlocks(l, LoadedState(l, ssm, table, bs, n), all[n..n + m], bd, Block(n, bs), table, ssm, |bd| - 1)
  }

  lemma {:induction false} PrefillSsmAt(l: Layer, all: seq<Token>, ssm: seq<Vec>, table: seq<nat>, bs: nat, n: nat,
                                        m: nat, b: nat)
    requires bs > 0 && m > 0 && n + m <= |all| && FinalBlock(n + m, bs) < |table| && FinalBlock(n, bs) < |table|
    requires (forall i :: 0 <= i < |table| ==> table[i] < |ssm|) && Injective(table) && b < |table|
    requires LoadedState(l, ssm, table, bs, n) == StateAt(l, Zeros(|l.a|), all, n)
    ensures var bd, k, r := Bounds(n, n + m, bs), Block(n, bs), PrefillSsm(l, all, ssm, table, bs, n, m);
            if k <= b < k + |bd| - 1 then
              n <= bd[b - k + 1] <= n + m && r[table[b]] == StateAt(l, Zeros(|l.a|), all, bd[b - k + 1])
            else r[table[b]] == ssm[table[b]]
  {
    hide Start, Block, Bounds, FinalBlock, Chunked, StateAt, Injective, LoadedState;
    var bd, k, s0 := Bounds(n, n + m, bs), Block(n, bs), LoadedState(l, ssm, table, bs, n);
    BoundsWithin(n, m, bs);
    StoreBlocksAt(l, s0, all[n..n + m], bd, k, table, ssm, |bd| - 1, b);
    if k <= b < k + |bd| - 1 {
      ResumedScan(l, all, n, m, bd[b - k + 1] - n);
    }
  }

  /** What a step loads is the state after the computed tokens. */
  lemma {:induction false} LoadedRight(l: Layer, all: seq<Token>, ssm: seq<Vec>, table: seq<nat>, bs: nat, n: nat)
    requires bs > 0 && Cached(l, all, ssm, table, bs, n) && FinalBlock(n, bs) < |table|
    ensures LoadedState(l, ssm, table, bs, n) == StateAt(l, Zeros(|l.a|), all, n)
  {
  }

  lemma {:induction false} BlockAfterPrefill(l: Layer, all: seq<Token>, ssm: seq<Vec>, table: seq<nat>, bs: nat, n: nat,
                                             m: nat, b: nat)
    requires bs > 0 && m > 0 && n + m <= |all| && FinalBlock(n + m, bs) < |table| && FinalBlock(n, bs) < |table|
    requires Injective(table) && Cached(l, all, ssm, table, bs, n)
    requires Start(b + 1, bs) <= n + m
    ensures b < |table|
    ensures PrefillSsm(l, all, ssm, table, bs, n, m)[table[b]] == StateAt(l, Zeros(|l.a|), all, Start(b + 1, bs))
  {
    hide Start, Block, Bounds, FinalBlock, Chunked, StateAt, Injective, PrefillSsm;
    BoundsWithin(n, m, bs);
    LoadedRight(l, all, ssm, table, bs, n);
    if Start(b + 1, bs) <= n {
      BeforeBlock(n, bs, b);
    } else {
      BoundaryIsChunkEnd(n, m, bs, b);
    }
    PrefillSsmAt(l, all, ssm, table, bs, n, m, b);
  }

  /** One prefill step loads the right state and leaves the cache right for the tokens up to its end. */
  lemma {:induction false} PrefillKeepsCache(l: Layer, all: seq<Token>, ssm: seq<Vec>, table: seq<nat>, bs: nat, n: nat,
                                             m: nat)
    requires bs > 0 && n + m <= |all| && FinalBlock(n + m, bs) < |table| && FinalBlock(n, bs) < |table|
    requires Injective(table) && Cached(l, all, ssm, table, bs, n)
    ensures LoadedState(l, ssm, table, bs, n) == StateAt(l, Zeros(|l.a|), all, n)
    ensures Cached(l, all, PrefillSsm(l, all, ssm, table, bs, n, m), table, bs, n + m)
  {
    hide Start, Block, Bounds, FinalBlock, Chunked, Injective, PrefillSsm, StateAt, LoadedState;
    LoadedRight(l, all, ssm, table, bs, n);
    if m == 0 {
      NothingPrefilled(l, all, ssm, table, bs, n);
      return;
    }
    forall b {:trigger Start(b + 1, bs)} | 0 <= b && Start(b + 1, bs) <= n + m
      ensures b < |table|
      ensures PrefillSsm(l, all, ssm, table, bs, n, m)[table[b]] == StateAt(l, Zeros(|l.a|), all, Start(b + 1, bs))
    {
      BlockAfterPrefill(l, all, ssm, table, bs, n, m, b);
    }
    BoundsWithin(n, m, bs);
    BoundsEnds(n, n + m, bs);
    PrefillSsmAt(l, all, ssm, table, bs, n, m, FinalBlock(n + m, bs));
  }

  lemma {:induction false} NothingPrefilled(l: Layer, all: seq<Token>, ssm: seq<Vec>, table: seq<nat>, bs: nat, n: nat)
    requires bs > 0 && n <= |all| && FinalBlock(n, bs) < |table|
    requires forall i :: 0 <= i < |table| ==> table[i] < |ssm|
    ensures PrefillSsm(l, all, ssm, table, bs, n, 0) == ssm
  {
  }

  /** A prefill step leaves alone every sequence that shares no block with the ones it writes; blocks
      that were full before may be shared. */
  lemma {:induction false} OthersKeepCache(l: Layer, all: seq<Token>, ssm: seq<Vec>, table: seq<nat>, bs: nat, n: nat,
                                           m: nat, other: seq<Token>, otherTable: seq<nat>, otherN: nat)
    requires bs > 0 && n + m <= |all| && FinalBlock(n + m, bs) < |table| && FinalBlock(n, bs) < |table|
    requires forall i :: 0 <= i < |table| ==> table[i] < |ssm|
    requires Cached(l, other, ssm, otherTable, bs, otherN)
    requires Block(n, bs) <= |table| && forall i :: 0 <= i < |otherTable| ==> otherTable[i] !in table[Block(n, bs)..]
    ensures Cached(l, other, PrefillSsm(l, all, ssm, table, bs, n, m), otherTable, bs, otherN)
  {
    hide Start, Block, Bounds, FinalBlock, Chunked, StateAt, StoreBlocks;
    if m == 0 {
      return;
    }
    BoundsWithin(n, m, bs);
    var bd, s0 := Bounds(n, n + m, bs), LoadedState(l, ssm, table, bs, n);
    forall i | 0 <= i < |otherTable|
      ensures PrefillSsm(l, all, ssm, table, bs, n, m)[otherTable[i]] == ssm[otherTable[i]]
    {
      StoreBlocksFrame(l, s0, all[n..n + m], bd, Block(n, bs), table, ssm, |bd| - 1, otherTable[i]);
    }
  }

  lemma {:induction false} BeforeBlock(n: nat, bs: nat, b: nat)
    requires bs > 0 && Start(b + 1, bs) <= n
    ensures b < Block(n, bs)
  {
    hide Start, Block;
    BlockOf(n, bs);
    if b >= Block(n, bs) {
      StartMonotone(Block(n, bs) + 1, b + 1, bs);
    }
  }

  /** What the kernel is given for a request without new tokens: no chunk, or an empty one inside a block. */
  lemma {:induction false} EmptyJob(computed: seq<nat>, queryStart: seq<int>, lastChunk: seq<int>, bs: nat, r: nat,
                                    table: seq<nat>, slots: nat)
    requires Batch(computed, queryStart, bs) && r < |computed| == |lastChunk| && !HasTokens(computed, queryStart, bs, r)
    requires forall q :: 0 <= q < |computed| ==> lastChunk[q] == |AllStarts(computed, queryStart, bs, q + 1)| - 1
    requires FinalBlock(computed[r], bs) < |table| && forall i :: 0 <= i < |table| ==> table[i] < slots
    ensures var j := RequestJob(computed, queryStart, lastChunk, bs, r, table);
            && j.Runnable(0, slots) && j.count == (if computed[r] % bs != 0 then 1 else 0)
            && j.table == table && j.blockLast == FinalBlock(computed[r], bs)
  {
    hide AllStarts, Cumulative, FinalBlock, FirstBlock;
    NoStarts(computed, queryStart, bs);
    EmptyStarts(computed, queryStart, bs, r);
    ChunkLast(computed, queryStart, bs, r);
    ChunkLast(computed, queryStart, bs, r + 1);
    var j := RequestJob(computed, queryStart, lastChunk, bs, r, table);
    assert j.first == |AllStarts(computed, queryStart, bs, r)|;
  }

  /** The kernel loads past the end of the chunk positions exactly for a request from which on no request has new tokens
      and the computed ones of all end at block boundaries. */
  lemma {:induction false} StrayLoadIff(computed: seq<nat>, queryStart: seq<int>, lastChunk: seq<int>, bs: nat, r: nat,
                                        table: seq<nat>)
    requires Batch(computed, queryStart, bs) && r < |computed| == |lastChunk|
    requires forall q :: 0 <= q < |computed| ==> lastChunk[q] == |AllStarts(computed, queryStart, bs, q + 1)| - 1
    ensures var j := RequestJob(computed, queryStart, lastChunk, bs, r, table);
            |j.cu| <= j.first + 1 <==>
            forall q :: r <= q < |computed| ==> !HasTokens(computed, queryStart, bs, q) && computed[q] % bs == 0
  {
    hide AllStarts, FinalBlock, FirstBlock;
    NoStarts(computed, queryStart, bs);
    ChunksFollowIff(computed, queryStart, bs, r);
  }

  lemma {:induction false} EmptyStored(l: Layer, s0: Vec, j: Job, ssm: seq<Vec>)
    requires j.Runnable(0, |ssm|) && j.count <= 1
    requires j.count == 1 ==> j.blockLast < |j.table| && j.table[j.blockLast] < |ssm| && s0 == ssm[j.table[j.blockLast]]
    ensures Stored(l, s0, [], j, ssm, j.count) == ssm
  {
    hide Job.Runnable;
    if j.count == 1 {
      AtStart(l, s0, [], j, ssm);
      AtChunk(l, s0, [], j, ssm, 0);
    } else {
      AtStart(l, s0, [], j, ssm);
    }
  }

  /** Without new tokens the kernel leaves the cache as it is. */
  lemma {:induction false} EmptyPrefill(l: Layer, all: seq<Token>, ssm: seq<Vec>, table: seq<nat>, bs: nat,
                                        computed: seq<nat>, queryStart: seq<int>, lastChunk: seq<int>, r: nat)
    requires Batch(computed, queryStart, bs) && r < |computed| == |lastChunk| && !HasTokens(computed, queryStart, bs, r)
    requires forall q :: 0 <= q < |computed| ==> lastChunk[q] == |AllStarts(computed, queryStart, bs, q + 1)| - 1
    requires computed[r] <= |all| && FinalBlock(computed[r], bs) < |table|
    requires forall i :: 0 <= i < |table| ==> table[i] < |ssm|
    ensures var n, j := computed[r], RequestJob(computed, queryStart, lastChunk, bs, r, table);
            && j.Runnable(0, |ssm|) && all[n..n] == []
            && Stored(l, LoadedState(l, ssm, table, bs, n), all[n..n], j, ssm, j.count) == ssm
            && PrefillSsm(l, all, ssm, table, bs, n, 0) == ssm
  {
    hide Start, Block, Bounds, FinalBlock, Stored, AllStarts, Cumulative, FirstBlock, Job.Runnable, StoreBlocks;
    EmptyJob(computed, queryStart, lastChunk, bs, r, table, |ssm|);
    EmptyStored(l, LoadedState(l, ssm, table, bs, computed[r]),
                RequestJob(computed, queryStart, lastChunk, bs, r, table), ssm);
  }

  /** The kernel, run on the metadata the builder makes for a batch, is that prefill step. */
  lemma {:induction false} KernelIsPrefill(l: Layer, all: seq<Token>, ssm: seq<Vec>, table: seq<nat>, bs: nat,
                                           computed: seq<nat>, queryStart: seq<int>, lastChunk: seq<int>, r: nat)
    requires Batch(computed, queryStart, bs) && r < |computed| == |lastChunk|
    requires forall q :: 0 <= q < |computed| ==> lastChunk[q] == |AllStarts(computed, queryStart, bs, q + 1)| - 1
    requires var n, m := computed[r], queryStart[r + 1] - queryStart[r];
             n + m <= |all| && FinalBlock(n + m, bs) < |table| && FinalBlock(n, bs) < |table|
    requires forall i :: 0 <= i < |table| ==> table[i] < |ssm|
    ensures var n, m := computed[r], queryStart[r + 1] - queryStart[r];
            var j := RequestJob(computed, queryStart, lastChunk, bs, r, table);
            && j.Runnable(m, |ssm|)
            && Stored(l, LoadedState(l, ssm, table, bs, n), all[n..n + m], j, ssm, j.count) ==
               PrefillSsm(l, all, ssm, table, bs, n, m)
  {
    hide Start, Block, Bounds, FinalBlock, Along, StateAt, Stored, StoreBlocks, AllStarts, Cumulative, FirstBlock;
    hide Job.Runnable, Chunked, LoadedState;
    var n, m := computed[r], queryStart[r + 1] - queryStart[r];
    var j, bd, k := RequestJob(computed, queryStart, lastChunk, bs, r, table), Bounds(n, n + m, bs), Block(n, bs);
    if !HasTokens(computed, queryStart, bs, r) {
      EmptyPrefill(l, all, ssm, table, bs, computed, queryStart, lastChunk, r);
      return;
    }
    RequestJobAlong(computed, queryStart, lastChunk, bs, r, table);
    BoundsWithin(n, m, bs);
    BoundsEnds(n, n + m, bs);
    AlongCount(j, bd, k);
    AlongRunnable(j, bd, k, |ssm|);
    StoredIsStoreBlocks(l, LoadedState(l, ssm, table, bs, n), all[n..n + m], j, bd, k, ssm, j.count);
  }

  lemma {:induction false} AlongCount(j: Job, bd: seq<nat>, k: nat)
    requires Along(j, bd, k)
    ensures j.count + 1 == |bd|
  {
  }

  // ---- Whole prefills, cut into steps of any lengths ----------------------------------------

  /** The tokens that are computed after the first `i` steps. */
  function After(n: nat, steps: seq<nat>, i: nat): nat
    requires i <= |steps|
  {
    if i == 0 then n else After(n, steps, i - 1) + steps[i - 1]
  }

  /** Steps that prefill `all` after its first `n` tokens, with a table long enough for it. */
  ghost predicate Schedule(all: seq<Token>, table: seq<nat>, bs: nat, n: nat, steps: seq<nat>, slots: nat)
    requires bs > 0
  {
    && Injective(table) && (forall i :: 0 <= i < |table| ==> table[i] < slots)
    && (forall i :: 0 <= i <= |steps| ==>
          After(n, steps, i) <= |all| && FinalBlock(After(n, steps, i), bs) < |table|)
  }

  lemma {:induction false} StepFits(all: seq<Token>, table: seq<nat>, bs: nat, n: nat, steps: seq<nat>, slots: nat,
                                    i: nat)
    requires bs > 0 && Schedule(all, table, bs, n, steps, slots) && i < |steps|
    ensures var done := After(n, steps, i);
            && done + steps[i] == After(n, steps, i + 1) <= |all|
            && FinalBlock(done, bs) < |table| && FinalBlock(done + steps[i], bs) < |table|
    ensures forall s :: 0 <= s < |table| ==> table[s] < slots
  {
    hide FinalBlock, Injective;
    assert After(n, steps, i + 1) <= |all| && After(n, steps, i) <= |all|;
  }

  /** The cache after the first `i` steps. */
  function RunSsm(l: Layer, all: seq<Token>, ssm: seq<Vec>, table: seq<nat>, bs: nat, n: nat, steps: seq<nat>, i: nat)
    : (r: seq<Vec>)
    requires bs > 0 && Schedule(all, table, bs, n, steps, |ssm|) && i <= |steps|
    ensures |r| == |ssm|
  {
    hide *;
    if i == 0 then ssm
    else
      StepFits(all, table, bs, n, steps, |ssm|, i - 1);
      PrefillSsm(l, all, RunSsm(l, all, ssm, table, bs, n, steps, i - 1), table, bs, After(n, steps, i - 1),
                 steps[i - 1])
  }

  /** However a prefill is cut into steps, every step loads the state that one uninterrupted scan has
      at its start, its outputs are those of that scan, and the cache ends up right. */
  lemma {:induction false} RunKeepsCache(l: Layer, all: seq<Token>, ssm: seq<Vec>, table: seq<nat>, bs: nat, n: nat,
                                         steps: seq<nat>, i: nat)
    requires bs > 0 && Schedule(all, table, bs, n, steps, |ssm|) && i <= |steps|
    requires Cached(l, all, ssm, table, bs, n)
    ensures Cached(l, all, RunSsm(l, all, ssm, table, bs, n, steps, i), table, bs, After(n, steps, i))
    ensures LoadedState(l, RunSsm(l, all, ssm, table, bs, n, steps, i), table, bs, After(n, steps, i)) ==
            StateAt(l, Zeros(|l.a|), all, After(n, steps, i))
    ensures i < |steps| ==>
              var done := After(n, steps, i);
              StepOutputs(l, LoadedState(l, RunSsm(l, all, ssm, table, bs, n, steps, i), table, bs, done),
                          all, done, steps[i])
  {
    hide FinalBlock, PrefillSsm, StateAt, StepOutputs, Injective;
    if i < |steps| {
      StepFits(all, table, bs, n, steps, |ssm|, i);
      StepOutputsAre(l, all, After(n, steps, i), steps[i]);
    }
    if i == 0 {
    } else {
      StepFits(all, table, bs, n, steps, |ssm|, i - 1);
      RunKeepsCache(l, all, ssm, table, bs, n, steps, i - 1);
      PrefillKeepsCache(l, all, RunSsm(l, all, ssm, table, bs, n, steps, i - 1), table, bs,
                        After(n, steps, i - 1), steps[i - 1]);
    }
    LoadedRight(l, all, RunSsm(l, all, ssm, table, bs, n, steps, i), table, bs, After(n, steps, i));
  }

  /** A request that shares the blocks of its first `k` full blocks of tokens with a cached one
      resumes after them. */
  lemma {:induction false} SharedPrefix(l: Layer, all: seq<Token>, all': seq<Token>, ssm: seq<Vec>, table: seq<nat>,
                                        table': seq<nat>, bs: nat, n: nat, k: nat)
    requires bs > 0 && Cached(l, all, ssm, table, bs, n) && Start(k, bs) <= n && Start(k, bs) <= |all'|
    requires all[..Start(k, bs)] == all'[..Start(k, bs)]
    requires k <= |table| && k <= |table'| && table[..k] == table'[..k]
    requires forall i :: 0 <= i < |table'| ==> table'[i] < |ssm|
    ensures Cached(l, all', ssm, table', bs, Start(k, bs))
  {
    hide StateAt;
    forall b {:trigger Start(b + 1, bs)} | 0 <= b && Start(b + 1, bs) <= Start(k, bs)
      ensures b < |table'| && ssm[table'[b]] == StateAt(l, Zeros(|l.a|), all', Start(b + 1, bs))
    {
      SharedBlock(l, all, all', ssm, table, table', bs, n, k, b);
    }
    if Start(k, bs) > 0 {
      FinalBlockAtStart(k, bs);
      SharedBlock(l, all, all', ssm, table, table', bs, n, k, k - 1);
    }
  }

  lemma {:induction false} FinalBlockAtStart(k: nat, bs: nat)
    requires bs > 0 && Start(k, bs) > 0
    ensures k > 0 && FinalBlock(Start(k, bs), bs) == k - 1
  {
    NextStart(k - 1, bs);
    BlockIndices(Start(k, bs), bs);
    BlockIs(Start(k, bs) - 1, bs, k - 1);
  }

  lemma {:induction false} SharedBlock(l: Layer, all: seq<Token>, all': seq<Token>, ssm: seq<Vec>, table: seq<nat>,
                                       table': seq<nat>, bs: nat, n: nat, k: nat, b: nat)
    requires bs > 0 && Cached(l, all, ssm, table, bs, n) && Start(k, bs) <= n && Start(k, bs) <= |all'|
    requires all[..Start(k, bs)] == all'[..Start(k, bs)]
    requires k <= |table| && k <= |table'| && table[..k] == table'[..k]
    requires forall i :: 0 <= i < |table'| ==> table'[i] < |ssm|
    requires Start(b + 1, bs) <= Start(k, bs)
    ensures b < k && ssm[table'[b]] == StateAt(l, Zeros(|l.a|), all', Start(b + 1, bs))
  {
    BeforeBlock(Start(k, bs), bs, b);
    BlockAtStart(k, bs);
    hide Start, FinalBlock;
    assert table'[b] == table'[..k][b] == table[..k][b] == table[b];
    var e := Start(b + 1, bs);
    assert all[..e] == all[..Start(k, bs)][..e] && all'[..e] == all'[..Start(k, bs)][..e];
    StateAtPrefix(l, Zeros(|l.a|), all, all', e);
  }
}
