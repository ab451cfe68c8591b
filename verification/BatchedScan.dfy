/** Prefills of several requests that share one cache: a batch as the metadata builder and the kernel
    run it (vllm/v1/attention/backends/mamba_attn.py, vllm/_xpu_ops.py), and interleaved runs. */
module BatchedScan {
  import opened Blocks
  import opened PrefixCachedScan
  import opened ScanChunks
  import opened ScanResponse
  import opened SelectiveScan

  // ---- One request of a batch -----------------------------------------------------------------

  /** The buffers hold, from `start` on, the outputs of tokens `n` to `n + m` of the plain scan of `all`. */
  ghost predicate HoldsOutputs(l: Layer, all: seq<Token>, n: nat, m: nat, start: nat, delta: seq<real>, z: seq<real>) {
    && n + m <= |all| && start + m <= |delta| && (l.hasZ ==> start + m <= |z|)
    && (forall p {:trigger delta[p]} :: start <= p < start + m ==>
          delta[p] == OutAt(l, Zeros(|l.a|), all, n + p - start))
    && (l.hasZ ==> forall p {:trigger z[p]} :: start <= p < start + m ==>
          z[p] == OutZAt(l, Zeros(|l.a|), all, n + p - start))
  }

  predicate SameOutside(xs: seq<real>, ys: seq<real>, lo: nat, hi: nat) {
    |xs| == |ys| && forall i :: 0 <= i < |xs| && !(lo <= i < hi) ==> xs[i] == ys[i]
  }

  /** What a request needs: a table for its tokens, all in the cache, and its past in the cache. */
  ghost predicate Ready(l: Layer, all: seq<Token>, ssm: seq<Vec>, table: seq<nat>, bs: nat, n: nat, m: nat)
    requires bs > 0
  {
    && n + m <= |all| && FinalBlock(n + m, bs) < |table| && FinalBlock(n, bs) < |table|
    && Injective(table) && Cached(l, all, ssm, table, bs, n)
  }

  /** The outputs that the kernel leaves are those of the plain scan. */
  lemma {:induction false} OutputsAre(l: Layer, all: seq<Token>, n: nat, m: nat, start: nat, s0: Vec, toks: seq<Token>,
                                      delta0: seq<real>, z0: seq<real>, delta: seq<real>, z: seq<real>)
    requires n + m <= |all| && toks == all[n..n + m] && s0 == StateAt(l, Zeros(|l.a|), all, n)
    requires Overwritten(l, s0, toks, start, m, delta0, z0, delta, z)
    ensures HoldsOutputs(l, all, n, m, start, delta, z)
    ensures SameOutside(delta0, delta, start, start + m) && SameOutside(z0, z, start, start + m)
  {
    hide OutAt, OutZAt, StateAt;
    forall p | start <= p < start + m
      ensures delta[p] == OutAt(l, Zeros(|l.a|), all, n + p - start)
      ensures l.hasZ ==> z[p] == OutZAt(l, Zeros(|l.a|), all, n + p - start)
    {
      ResumedScan(l, all, n, m, p - start);
    }
  }

  lemma {:induction false} ReadyStep(l: Layer, all: seq<Token>, ssm: seq<Vec>, table: seq<nat>, bs: nat, n: nat, m: nat)
    requires bs > 0 && Ready(l, all, ssm, table, bs, n, m)
    ensures n + m <= |all| && FinalBlock(n + m, bs) < |table| && FinalBlock(n, bs) < |table|
    ensures forall i :: 0 <= i < |table| ==> table[i] < |ssm|
    ensures LoadedState(l, ssm, table, bs, n) == StateAt(l, Zeros(|l.a|), all, n)
    ensures Cached(l, all, PrefillSsm(l, all, ssm, table, bs, n, m), table, bs, n + m)
  {
    hide FinalBlock, PrefillSsm, StateAt, Injective;
    PrefillKeepsCache(l, all, ssm, table, bs, n, m);
  }

  /** The kernel for request `r`, on the metadata of the builder and the block indices of the request: it leaves the
      outputs of the plain scan over the whole sequence and a cache that is right up to the new end. */
  method PrefillRequest(l: Layer, u: seq<real>, b: seq<Vec>, c: seq<Vec>, delta: array<real>, z: array<real>,
                        ssm: array<Vec>, computed: seq<nat>, queryStart: seq<int>, cu: seq<int>, lastChunk: seq<int>,
                        bs: nat, r: nat, table: seq<nat>, nullBlock: nat, stray: int, ghost all: seq<Token>)
    requires Batch(computed, queryStart, bs) && r < |computed| == |lastChunk|
    requires cu == Cumulative(computed, queryStart, bs)
    requires forall q :: 0 <= q < |computed| ==> lastChunk[q] == |AllStarts(computed, queryStart, bs, q + 1)| - 1
    requires 0 <= queryStart[r] <= queryStart[r + 1] <= |u| == |b| == |c| == delta.Length
    requires (l.hasZ ==> z.Length == |u|) && delta != z
    requires Ready(l, all, ssm[..], table, bs, computed[r], queryStart[r + 1] - queryStart[r])
    requires table[FinalBlock(computed[r], bs)] != nullBlock
    requires var n, m := computed[r], queryStart[r + 1] - queryStart[r];
             all[n..n + m] == Toks(l, u, b, c, delta[..], z[..], queryStart[r], m)
    modifies delta, z, ssm
    ensures var n, m := computed[r], queryStart[r + 1] - queryStart[r];
            && n + m <= |all| && FinalBlock(n + m, bs) < |table| && FinalBlock(n, bs) < |table|
            && (forall i :: 0 <= i < |table| ==> table[i] < ssm.Length)
            && ssm[..] == PrefillSsm(l, all, old(ssm[..]), table, bs, n, m)
            && Cached(l, all, ssm[..], table, bs, n + m)
            && HoldsOutputs(l, all, n, m, queryStart[r], delta[..], z[..])
            && HoldsResponse(l, all, n, m, queryStart[r], delta[..], z[..])
            && CachesResponse(l, all, ssm[..], table, bs, n + m)
            && SameOutside(old(delta[..]), delta[..], queryStart[r], queryStart[r + 1])
            && SameOutside(old(z[..]), z[..], queryStart[r], queryStart[r + 1])
  {
    hide HoldsResponse, CachesResponse, Ready, Cached, PrefillSsm, StateAt, Overwritten, Toks, HoldsOutputs;
    hide SameOutside, Stored, AllStarts, Cumulative;
    hide Batch, Job.Runnable, FinalBlock, FirstBlock, Bounds, Block, Start, Injective;
    ghost var ssm0, delta0, z0 := ssm[..], delta[..], z[..];
    BatchSizes(computed, queryStart, bs);
    var n, m, start := computed[r], queryStart[r + 1] - queryStart[r], queryStart[r];
    ReadyStep(l, all, ssm0, table, bs, n, m);
    KernelIsPrefill(l, all, ssm0, table, bs, computed, queryStart, lastChunk, r);
    BlockIndices(n, bs);
    ScanSequence(l, u, b, c, delta, z, ssm, start, m, r, lastChunk, cu,
                 FirstBlock(n, bs), FinalBlock(n + m, bs), FinalBlock(n, bs), bs, table, nullBlock, n > 0,
                 stray);
    OutputsAre(l, all, n, m, start, LoadedState(l, ssm0, table, bs, n), all[n..n + m], delta0, z0, delta[..], z[..]);
    OutputNumbers(l, all, n, m, start, delta[..], z[..]);
    CachedNumbers(l, all, ssm[..], table, bs, n + m);
  }

  lemma {:induction false} BatchSizes(computed: seq<nat>, queryStart: seq<int>, bs: nat)
    requires Batch(computed, queryStart, bs)
    ensures bs > 0 && |queryStart| == |computed| + 1
  {
  }

  // ---- A batch --------------------------------------------------------------------------------

  /** The blocks that a request with `n` computed tokens may still write. */
  function Writable(table: seq<nat>, bs: nat, n: nat): seq<nat>
    requires bs > 0
  {
    if Block(n, bs) <= |table| then table[Block(n, bs)..] else []
  }

  /** No request has a block that another may write; full blocks may be shared. */
  ghost predicate Separate(tables: seq<seq<nat>>, counts: seq<nat>, bs: nat)
    requires bs > 0 && |tables| == |counts|
  {
    forall q, r, i :: 0 <= q < |tables| && 0 <= r < |tables| && q != r && 0 <= i < |tables[q]| ==>
      tables[q][i] !in Writable(tables[r], bs, counts[r])
  }

  lemma {:induction false} BlockBound(n: nat, bs: nat, len: nat)
    requires bs > 0 && FinalBlock(n, bs) < len
    ensures Block(n, bs) <= len
  {
    hide FinalBlock, Start, Block;
    BlockOf(n, bs);
    if n > 0 {
      BlockIndices(n, bs);
      BlockOf(n - 1, bs);
      if Block(n - 1, bs) + 1 < Block(n, bs) {
        StartMonotone(Block(n - 1, bs) + 1, Block(n, bs) - 1, bs);
        NextStart(Block(n, bs) - 1, bs);
      }
    } else {
      ZeroBlock(bs);
    }
  }

  lemma {:induction false} ZeroBlock(bs: nat)
    requires bs > 0
    ensures Block(0, bs) == 0
  {
    DivUnique(0, bs, 0, 0);
  }

  lemma {:induction false} SeparateAt(tables: seq<seq<nat>>, counts: seq<nat>, bs: nat, q: nat, r: nat)
    requires bs > 0 && |tables| == |counts| && Separate(tables, counts, bs) && q < |tables| && r < |tables| && q != r
    requires Block(counts[r], bs) <= |tables[r]|
    ensures forall i :: 0 <= i < |tables[q]| ==> tables[q][i] !in tables[r][Block(counts[r], bs)..]
  {
    hide Block;
  }

  /** A step of request `r` leaves the cache of request `q` alone. */
  lemma {:induction false} OthersKept(l: Layer, alls: seq<seq<Token>>, ssm: seq<Vec>, tables: seq<seq<nat>>, bs: nat,
                                      counts: seq<nat>, r: nat, m: nat, q: nat, otherN: nat)
    requires bs > 0 && |alls| == |tables| == |counts| && r < |alls| && q < |alls| && q != r
    requires counts[r] + m <= |alls[r]| && FinalBlock(counts[r] + m, bs) < |tables[r]|
    requires FinalBlock(counts[r], bs) < |tables[r]| && forall i :: 0 <= i < |tables[r]| ==> tables[r][i] < |ssm|
    requires Separate(tables, counts, bs) && Cached(l, alls[q], ssm, tables[q], bs, otherN)
    ensures Cached(l, alls[q], PrefillSsm(l, alls[r], ssm, tables[r], bs, counts[r], m), tables[q], bs, otherN)
  {
    hide FinalBlock, Block, PrefillSsm, Cached, Separate;
    BlockBound(counts[r], bs, |tables[r]|);
    SeparateAt(tables, counts, bs, q, r);
    OthersKeepCache(l, alls[r], ssm, tables[r], bs, counts[r], m, alls[q], tables[q], otherN);
  }

  lemma {:induction false} OutputsKept(l: Layer, all: seq<Token>, n: nat, m: nat, start: nat, delta: seq<real>,
                                       z: seq<real>, delta': seq<real>, z': seq<real>, lo: nat, hi: nat)
    requires HoldsOutputs(l, all, n, m, start, delta, z) && start + m <= lo
    requires SameOutside(delta, delta', lo, hi) && SameOutside(z, z', lo, hi)
    ensures HoldsOutputs(l, all, n, m, start, delta', z')
  {
    hide OutAt, OutZAt;
  }

  /** The new tokens of a request are in the buffers. */
  ghost predicate TokensAre(l: Layer, u: seq<real>, b: seq<Vec>, c: seq<Vec>, delta: seq<real>, z: seq<real>,
                            all: seq<Token>, n: nat, m: nat, start: nat)
    requires start + m <= |u| == |b| == |c| == |delta| && (l.hasZ ==> |z| == |u|)
  {
    n + m <= |all| && all[n..n + m] == Toks(l, u, b, c, delta, z, start, m)
  }

  lemma {:induction false} TokensKept(l: Layer, u: seq<real>, b: seq<Vec>, c: seq<Vec>, delta: seq<real>, z: seq<real>,
                                      delta': seq<real>, z': seq<real>, all: seq<Token>, n: nat, m: nat, start: nat,
                                      lo: nat, hi: nat)
    requires start + m <= |u| == |b| == |c| == |delta| && (l.hasZ ==> |z| == |u|)
    requires TokensAre(l, u, b, c, delta, z, all, n, m, start) && hi <= start
    requires SameOutside(delta, delta', lo, hi) && SameOutside(z, z', lo, hi)
    ensures TokensAre(l, u, b, c, delta', z', all, n, m, start)
  {
    assert Toks(l, u, b, c, delta', z', start, m) == Toks(l, u, b, c, delta, z, start, m);
  }

  lemma {:induction false} QueriesOrdered(computed: seq<nat>, queryStart: seq<int>, bs: nat, q: nat, r: nat)
    requires Batch(computed, queryStart, bs) && q <= r <= |computed|
    ensures queryStart[0] <= queryStart[q] <= queryStart[r]
  {
    if q == r {
      assert r < |computed| ==> queryStart[0] <= queryStart[r] by {
        if r < |computed| {
          assert computed[r] >= 0;
        }
      }
      if r == |computed| && r > 0 {
        assert computed[r - 1] >= 0;
      }
    } else {
      QueriesOrdered(computed, queryStart, bs, q, r - 1);
      assert computed[r - 1] >= 0;
    }
  }

  /** What the batch needs of request `q`, in the buffers and the cache as they are. */
  ghost predicate Pending(l: Layer, u: seq<real>, b: seq<Vec>, c: seq<Vec>, delta: seq<real>, z: seq<real>,
                          ssm: seq<Vec>, computed: seq<nat>, queryStart: seq<int>, bs: nat, tables: seq<seq<nat>>,
                          nullBlock: nat, alls: seq<seq<Token>>, q: nat)
    requires Batch(computed, queryStart, bs) && q < |computed| == |tables| == |alls|
  {
    var n, m, start := computed[q], queryStart[q + 1] - queryStart[q], queryStart[q];
    && 0 <= m && 0 <= start && start + m <= |u| == |b| == |c| == |delta| && (l.hasZ ==> |z| == |u|)
    && Ready(l, alls[q], ssm, tables[q], bs, n, m) && tables[q][FinalBlock(n, bs)] != nullBlock
    && TokensAre(l, u, b, c, delta, z, alls[q], n, m, start)
  }

  /** What the batch has done for request `q`. */
  ghost predicate Served(l: Layer, delta: seq<real>, z: seq<real>, ssm: seq<Vec>, computed: seq<nat>,
                         queryStart: seq<int>, bs: nat, tables: seq<seq<nat>>, alls: seq<seq<Token>>, q: nat)
    requires Batch(computed, queryStart, bs) && q < |computed| == |tables| == |alls|
  {
    var n, m, start := computed[q], queryStart[q + 1] - queryStart[q], queryStart[q];
    0 <= start && Cached(l, alls[q], ssm, tables[q], bs, n + m) && HoldsOutputs(l, alls[q], n, m, start, delta, z)
  }

  /** The buffers and the cache have the numbers of the sequence of request `q`. */
  ghost predicate Answered(l: Layer, delta: seq<real>, z: seq<real>, ssm: seq<Vec>, computed: seq<nat>,
                           queryStart: seq<int>, bs: nat, tables: seq<seq<nat>>, alls: seq<seq<Token>>, q: nat)
    requires Batch(computed, queryStart, bs) && q < |computed| == |tables| == |alls|
  {
    var n, m, start := computed[q], queryStart[q + 1] - queryStart[q], queryStart[q];
    && 0 <= start && HoldsResponse(l, alls[q], n, m, start, delta, z)
    && CachesResponse(l, alls[q], ssm, tables[q], bs, n + m)
  }

  /** Serving request `r` does not undo what is done for an earlier one. */
  lemma {:induction false} StaysServed(l: Layer, delta: seq<real>, z: seq<real>, ssm: seq<Vec>, delta': seq<real>,
                                       z': seq<real>, ssm': seq<Vec>, computed: seq<nat>, queryStart: seq<int>, bs: nat,
                                       tables: seq<seq<nat>>, alls: seq<seq<Token>>, r: nat, q: nat)
    requires Batch(computed, queryStart, bs) && q < r < |computed| == |tables| == |alls| && queryStart[0] >= 0
    requires 0 <= queryStart[r] <= queryStart[r + 1] && Separate(tables, computed, bs)
    requires var n, m := computed[r], queryStart[r + 1] - queryStart[r];
             && Ready(l, alls[r], ssm, tables[r], bs, n, m)
             && n + m <= |alls[r]| && FinalBlock(n + m, bs) < |tables[r]| && FinalBlock(n, bs) < |tables[r]|
             && (forall i :: 0 <= i < |tables[r]| ==> tables[r][i] < |ssm|)
             && ssm' == PrefillSsm(l, alls[r], ssm, tables[r], bs, n, m)
    requires SameOutside(delta, delta', queryStart[r], queryStart[r + 1]) &&
             SameOutside(z, z', queryStart[r], queryStart[r + 1])
    requires Served(l, delta, z, ssm, computed, queryStart, bs, tables, alls, q)
    ensures Served(l, delta', z', ssm', computed, queryStart, bs, tables, alls, q)
  {
    hide Cached, FinalBlock, PrefillSsm, HoldsOutputs, SameOutside, Separate, Batch, Ready;
    BatchSizes(computed, queryStart, bs);
    QueriesOrdered(computed, queryStart, bs, q, q + 1);
    QueriesOrdered(computed, queryStart, bs, q + 1, r);
    var n, m := computed[q], queryStart[q + 1] - queryStart[q];
    OthersKept(l, alls, ssm, tables, bs, computed, r, queryStart[r + 1] - queryStart[r], q, n + m);
    OutputsKept(l, alls[q], n, m, queryStart[q], delta, z, delta', z', queryStart[r], queryStart[r + 1]);
  }

  /** Serving request `r` leaves a later one as it was. */
  lemma {:induction false} StaysPending(l: Layer, u: seq<real>, b: seq<Vec>, c: seq<Vec>, delta: seq<real>,
                                        z: seq<real>, ssm: seq<Vec>, delta': seq<real>, z': seq<real>, ssm': seq<Vec>,
                                        computed: seq<nat>, queryStart: seq<int>, bs: nat, tables: seq<seq<nat>>,
                                        nullBlock: nat, alls: seq<seq<Token>>, r: nat, q: nat)
    requires Batch(computed, queryStart, bs) && r < q < |computed| == |tables| == |alls| && queryStart[0] >= 0
    requires 0 <= queryStart[r] <= queryStart[r + 1] && Separate(tables, computed, bs)
    requires var n, m := computed[r], queryStart[r + 1] - queryStart[r];
             && Ready(l, alls[r], ssm, tables[r], bs, n, m)
             && n + m <= |alls[r]| && FinalBlock(n + m, bs) < |tables[r]| && FinalBlock(n, bs) < |tables[r]|
             && (forall i :: 0 <= i < |tables[r]| ==> tables[r][i] < |ssm|)
             && ssm' == PrefillSsm(l, alls[r], ssm, tables[r], bs, n, m)
    requires SameOutside(delta, delta', queryStart[r], queryStart[r + 1]) &&
             SameOutside(z, z', queryStart[r], queryStart[r + 1])
    requires Pending(l, u, b, c, delta, z, ssm, computed, queryStart, bs, tables, nullBlock, alls, q)
    ensures Pending(l, u, b, c, delta', z', ssm', computed, queryStart, bs, tables, nullBlock, alls, q)
  {
    hide Cached, FinalBlock, PrefillSsm, SameOutside, TokensAre, Separate, Injective, Batch;
    BatchSizes(computed, queryStart, bs);
    QueriesOrdered(computed, queryStart, bs, r, r + 1);
    QueriesOrdered(computed, queryStart, bs, r + 1, q);
    var n, m := computed[q], queryStart[q + 1] - queryStart[q];
    OthersKept(l, alls, ssm, tables, bs, computed, r, queryStart[r + 1] - queryStart[r], q, n);
    SameLengths(delta, delta', z, z', queryStart[r], queryStart[r + 1]);
    TokensKept(l, u, b, c, delta, z, delta', z', alls[q], n, m, queryStart[q], queryStart[r], queryStart[r + 1]);
  }

  lemma {:induction false} SameLengths(delta: seq<real>, delta': seq<real>, z: seq<real>, z': seq<real>, lo: nat,
                                       hi: nat)
    requires SameOutside(delta, delta', lo, hi) && SameOutside(z, z', lo, hi)
    ensures |delta| == |delta'| && |z| == |z'|
  {
  }

  /** A whole batch, from the builder to the kernel: every request gets the outputs that one plain scan over its whole
      sequence has there, and its state is in the cache after every full block and after its last token. */
  method PrefillBatch(l: Layer, u: seq<real>, b: seq<Vec>, c: seq<Vec>, delta: array<real>, z: array<real>,
                      ssm: array<Vec>, computed: seq<nat>, queryStart: seq<int>, bs: nat, tables: seq<seq<nat>>,
                      nullBlock: nat, stray: int, ghost alls: seq<seq<Token>>)
    requires Batch(computed, queryStart, bs) && |computed| == |tables| == |alls| && queryStart[0] >= 0 && delta != z
    requires Separate(tables, computed, bs)
    requires forall q :: 0 <= q < |computed| ==>
               Pending(l, u, b, c, delta[..], z[..], ssm[..], computed, queryStart, bs, tables, nullBlock, alls, q)
    modifies delta, z, ssm
    ensures forall q :: 0 <= q < |computed| ==>
              Served(l, delta[..], z[..], ssm[..], computed, queryStart, bs, tables, alls, q)
    ensures forall q :: 0 <= q < |computed| ==>
              Answered(l, delta[..], z[..], ssm[..], computed, queryStart, bs, tables, alls, q)
  {
    hide Answered, Pending, Served, Separate, AllStarts, Cumulative, PrefillSsm, SameOutside, Batch;
    BatchSizes(computed, queryStart, bs);
    var cu, idx, lastChunk := ComputeChunkMetadata(computed, queryStart, bs);
    for r := 0 to |computed|
      invariant forall q :: 0 <= q < r ==>
                  Served(l, delta[..], z[..], ssm[..], computed, queryStart, bs, tables, alls, q)
      invariant forall q :: r <= q < |computed| ==>
                  Pending(l, u, b, c, delta[..], z[..], ssm[..], computed, queryStart, bs, tables, nullBlock, alls, q)
    {
      ghost var delta0, z0, ssm0 := delta[..], z[..], ssm[..];
      IsPending(l, u, b, c, delta0, z0, ssm0, computed, queryStart, bs, tables, nullBlock, alls, r);
      PrefillRequest(l, u, b, c, delta, z, ssm, computed, queryStart, cu, lastChunk, bs, r, tables[r], nullBlock,
                     stray, alls[r]);
      IsServed(l, delta[..], z[..], ssm[..], computed, queryStart, bs, tables, alls, r);
      forall q | 0 <= q < |computed| && q != r
        ensures q < r ==> Served(l, delta[..], z[..], ssm[..], computed, queryStart, bs, tables, alls, q)
        ensures r < q ==>
                  Pending(l, u, b, c, delta[..], z[..], ssm[..], computed, queryStart, bs, tables, nullBlock, alls, q)
      {
        if q < r {
          StaysServed(l, delta0, z0, ssm0, delta[..], z[..], ssm[..], computed, queryStart, bs, tables, alls, r, q);
        } else {
          StaysPending(l, u, b, c, delta0, z0, ssm0, delta[..], z[..], ssm[..], computed, queryStart, bs,
                       tables, nullBlock, alls, r, q);
        }
      }
    }
    forall q | 0 <= q < |computed|
      ensures Answered(l, delta[..], z[..], ssm[..], computed, queryStart, bs, tables, alls, q)
    {
      ServedNumbers(l, delta[..], z[..], ssm[..], computed, queryStart, bs, tables, alls, q);
    }
  }

  /** What a request gets are the numbers of its sequence. */
  lemma {:induction false} ServedNumbers(l: Layer, delta: seq<real>, z: seq<real>, ssm: seq<Vec>, computed: seq<nat>,
                                         queryStart: seq<int>, bs: nat, tables: seq<seq<nat>>, alls: seq<seq<Token>>,
                                         q: nat)
    requires Batch(computed, queryStart, bs) && q < |computed| == |tables| == |alls|
    requires Served(l, delta, z, ssm, computed, queryStart, bs, tables, alls, q)
    ensures Answered(l, delta, z, ssm, computed, queryStart, bs, tables, alls, q)
  {
    hide HoldsResponse, CachesResponse, HoldsOutputs, Cached;
    var n, m, start := computed[q], queryStart[q + 1] - queryStart[q], queryStart[q];
    CachedNumbers(l, alls[q], ssm, tables[q], bs, n + m);
    OutputNumbers(l, alls[q], n, m, start, delta, z);
  }

  lemma {:induction false} OutputNumbers(l: Layer, all: seq<Token>, n: nat, m: nat, start: nat, delta: seq<real>,
                                         z: seq<real>)
    requires HoldsOutputs(l, all, n, m, start, delta, z)
    ensures HoldsResponse(l, all, n, m, start, delta, z)
  {
    hide OutAt, OutZAt, OutputOf, GatedOf, Zeros, Blank;
    ZerosBlank(|l.a|);
    forall p | start <= p < start + m
      ensures delta[p] == OutputOf(l, all, n + p - start) && (l.hasZ ==> z[p] == GatedOf(l, all, n + p - start))
    {
      OutputIs(l, Zeros(|l.a|), all, n + p - start);
    }
  }

  lemma {:induction false} IsPending(l: Layer, u: seq<real>, b: seq<Vec>, c: seq<Vec>, delta: seq<real>, z: seq<real>,
                                     ssm: seq<Vec>, computed: seq<nat>, queryStart: seq<int>, bs: nat,
                                     tables: seq<seq<nat>>, nullBlock: nat, alls: seq<seq<Token>>, q: nat)
    requires Batch(computed, queryStart, bs) && q < |computed| == |tables| == |alls|
    requires Pending(l, u, b, c, delta, z, ssm, computed, queryStart, bs, tables, nullBlock, alls, q)
    ensures var n, m, start := computed[q], queryStart[q + 1] - queryStart[q], queryStart[q];
            && 0 <= m && 0 <= start && start + m <= |u| == |b| == |c| == |delta|
            && (l.hasZ ==> |z| == |u|) && Ready(l, alls[q], ssm, tables[q], bs, n, m)
            && FinalBlock(n, bs) < |tables[q]| && tables[q][FinalBlock(n, bs)] != nullBlock
            && n + m <= |alls[q]| && alls[q][n..n + m] == Toks(l, u, b, c, delta, z, start, m)
  {
    hide Cached, FinalBlock;
  }

  lemma {:induction false} IsServed(l: Layer, delta: seq<real>, z: seq<real>, ssm: seq<Vec>, computed: seq<nat>,
                                    queryStart: seq<int>, bs: nat, tables: seq<seq<nat>>, alls: seq<seq<Token>>, q: nat)
    requires Batch(computed, queryStart, bs) && q < |computed| == |tables| == |alls| && queryStart[q] >= 0
    requires var n, m, start := computed[q], queryStart[q + 1] - queryStart[q], queryStart[q];
             Cached(l, alls[q], ssm, tables[q], bs, n + m) && HoldsOutputs(l, alls[q], n, m, start, delta, z)
    ensures Served(l, delta, z, ssm, computed, queryStart, bs, tables, alls, q)
  {
  }

  // ---- Interleaved runs -----------------------------------------------------------------------

  /** One prefill step of one request. */
  datatype Turn = Turn(request: nat, tokens: nat)

  /** The tokens of request `q` that are computed after the first `i` turns. */
  function Count(counts: seq<nat>, turns: seq<Turn>, i: nat, q: nat): (n: nat)
    requires i <= |turns| && q < |counts|
    ensures n >= counts[q]
  {
    if i == 0 then counts[q]
    else Count(counts, turns, i - 1, q) + if turns[i - 1].request == q then turns[i - 1].tokens else 0
  }

  /** Turn `i` prefills tokens that its request has, into blocks that it has. */
  ghost predicate TurnFits(alls: seq<seq<Token>>, tables: seq<seq<nat>>, bs: nat, counts: seq<nat>, turns: seq<Turn>,
                           i: nat)
    requires bs > 0 && |alls| == |tables| == |counts| && i < |turns|
  {
    var q, m := turns[i].request, turns[i].tokens;
    && q < |alls|
    && (var n := Count(counts, turns, i, q);
        n + m <= |alls[q]| && FinalBlock(n + m, bs) < |tables[q]| && FinalBlock(n, bs) < |tables[q]|)
  }

  ghost predicate SlotsOk(tables: seq<seq<nat>>, slots: nat) {
    forall q :: 0 <= q < |tables| ==> Injective(tables[q]) && forall i :: 0 <= i < |tables[q]| ==> tables[q][i] < slots
  }

  ghost predicate Planned(alls: seq<seq<Token>>, tables: seq<seq<nat>>, bs: nat, counts: seq<nat>, slots: nat,
                          turns: seq<Turn>)
  {
    && bs > 0 && |alls| == |tables| == |counts| && Separate(tables, counts, bs) && SlotsOk(tables, slots)
    && forall i :: 0 <= i < |turns| ==> TurnFits(alls, tables, bs, counts, turns, i)
  }

  lemma {:induction false} PlannedAt(alls: seq<seq<Token>>, tables: seq<seq<nat>>, bs: nat, counts: seq<nat>,
                                     slots: nat, turns: seq<Turn>, i: nat)
    requires Planned(alls, tables, bs, counts, slots, turns) && i < |turns|
    ensures bs > 0 && |alls| == |tables| == |counts| && turns[i].request < |alls|
    ensures var q, m := turns[i].request, turns[i].tokens;
            var n := Count(counts, turns, i, q);
            && n + m <= |alls[q]| && FinalBlock(n + m, bs) < |tables[q]| && FinalBlock(n, bs) < |tables[q]|
            && Injective(tables[q]) && forall k :: 0 <= k < |tables[q]| ==> tables[q][k] < slots
  {
    hide FinalBlock, Injective, Count, Separate;
    assert TurnFits(alls, tables, bs, counts, turns, i);
  }

  /** The cache after the first `i` turns. */
  function TurnsSsm(l: Layer, alls: seq<seq<Token>>, ssm: seq<Vec>, tables: seq<seq<nat>>, bs: nat, counts: seq<nat>,
                    turns: seq<Turn>, i: nat): (r: seq<Vec>)
    requires Planned(alls, tables, bs, counts, |ssm|, turns) && i <= |turns|
    ensures |r| == |ssm|
  {
    hide *;
    if i == 0 then ssm
    else
      PlannedAt(alls, tables, bs, counts, |ssm|, turns, i - 1);
      var q := turns[i - 1].request;
      PrefillSsm(l, alls[q], TurnsSsm(l, alls, ssm, tables, bs, counts, turns, i - 1), tables[q], bs,
                 Count(counts, turns, i - 1, q), turns[i - 1].tokens)
  }

  lemma {:induction false} TurnsSsmNext(l: Layer, alls: seq<seq<Token>>, ssm: seq<Vec>, tables: seq<seq<nat>>, bs: nat,
                                        counts: seq<nat>, turns: seq<Turn>, i: nat)
    requires Planned(alls, tables, bs, counts, |ssm|, turns) && i < |turns|
    requires turns[i].request < |alls| == |tables| == |counts| && bs > 0
    requires var q, m := turns[i].request, turns[i].tokens;
             var n := Count(counts, turns, i, q);
             && n + m <= |alls[q]| && FinalBlock(n + m, bs) < |tables[q]| && FinalBlock(n, bs) < |tables[q]|
             && forall k :: 0 <= k < |tables[q]| ==> tables[q][k] < |ssm|
    ensures var q := turns[i].request;
            TurnsSsm(l, alls, ssm, tables, bs, counts, turns, i + 1) ==
            PrefillSsm(l, alls[q], TurnsSsm(l, alls, ssm, tables, bs, counts, turns, i), tables[q], bs,
                       Count(counts, turns, i, q), turns[i].tokens)
  {
    hide PrefillSsm, FinalBlock, Planned;
  }

  lemma {:induction false} LaterBlocks(table: seq<nat>, bs: nat, n: nat, n': nat, x: nat)
    requires bs > 0 && n <= n' && Block(n', bs) <= |table| && x !in Writable(table, bs, n)
    ensures x !in table[Block(n', bs)..]
  {
    hide Start;
    BlockOf(n, bs);
    BlockOf(n', bs);
    var k, k' := Block(n, bs), Block(n', bs);
    hide Block;
    if k' < k {
      StartMonotone(k' + 1, k, bs);
    }
    assert forall i :: 0 <= i < |table[k'..]| ==> table[k'..][i] == table[k..][i + (k' - k)];
  }

  /** A turn of request `r` leaves the cache of request `q` alone. */
  lemma {:induction false} OtherTurn(l: Layer, alls: seq<seq<Token>>, ssm: seq<Vec>, tables: seq<seq<nat>>, bs: nat,
                                     counts: seq<nat>, r: nat, n: nat, m: nat, q: nat, otherN: nat)
    requires bs > 0 && |alls| == |tables| == |counts| && r < |alls| && q < |alls| && q != r && counts[r] <= n
    requires Separate(tables, counts, bs)
    requires n + m <= |alls[r]| && FinalBlock(n + m, bs) < |tables[r]| && FinalBlock(n, bs) < |tables[r]|
    requires forall k :: 0 <= k < |tables[r]| ==> tables[r][k] < |ssm|
    requires Cached(l, alls[q], ssm, tables[q], bs, otherN)
    ensures Cached(l, alls[q], PrefillSsm(l, alls[r], ssm, tables[r], bs, n, m), tables[q], bs, otherN)
  {
    hide FinalBlock, Block, PrefillSsm, Cached, Writable;
    BlockBound(n, bs, |tables[r]|);
    forall i | 0 <= i < |tables[q]|
      ensures tables[q][i] !in tables[r][Block(n, bs)..]
    {
      LaterBlocks(tables[r], bs, counts[r], n, tables[q][i]);
    }
    OthersKeepCache(l, alls[r], ssm, tables[r], bs, n, m, alls[q], tables[q], otherN);
  }

  /** However the prefills of several requests are cut into steps and interleaved, the cache is right for every request
      after every step. */
  lemma {:induction false} TurnsKeepCache(l: Layer, alls: seq<seq<Token>>, ssm: seq<Vec>, tables: seq<seq<nat>>,
                                          bs: nat, counts: seq<nat>, turns: seq<Turn>, i: nat, q: nat)
    requires Planned(alls, tables, bs, counts, |ssm|, turns) && i <= |turns| && q < |alls|
    requires forall p :: 0 <= p < |alls| ==> Cached(l, alls[p], ssm, tables[p], bs, counts[p])
    ensures Cached(l, alls[q], TurnsSsm(l, alls, ssm, tables, bs, counts, turns, i), tables[q], bs,
                   Count(counts, turns, i, q))
    decreases i
  {
    hide FinalBlock, PrefillSsm, Cached, TurnFits, SlotsOk, Separate, Injective;
    if i == 0 {
    } else {
      TurnsKeepCache(l, alls, ssm, tables, bs, counts, turns, i - 1, q);
      PlannedAt(alls, tables, bs, counts, |ssm|, turns, i - 1);
      TurnsSsmNext(l, alls, ssm, tables, bs, counts, turns, i - 1);
      var r, m := turns[i - 1].request, turns[i - 1].tokens;
      var n, before := Count(counts, turns, i - 1, r), TurnsSsm(l, alls, ssm, tables, bs, counts, turns, i - 1);
      if r == q {
        PrefillKeepsCache(l, alls[r], before, tables[r], bs, n, m);
      } else {
        OtherTurn(l, alls, before, tables, bs, counts, r, n, m, q, Count(counts, turns, i - 1, q));
      }
    }
  }

  /** So every step of every request has the outputs that one uninterrupted scan of that request has there. */
  lemma {:induction false} TurnOutputs(l: Layer, alls: seq<seq<Token>>, ssm: seq<Vec>, tables: seq<seq<nat>>, bs: nat,
                                       counts: seq<nat>, turns: seq<Turn>, i: nat)
    requires Planned(alls, tables, bs, counts, |ssm|, turns) && i < |turns|
    requires forall p :: 0 <= p < |alls| ==> Cached(l, alls[p], ssm, tables[p], bs, counts[p])
    ensures var q, m := turns[i].request, turns[i].tokens;
            && q < |alls| == |tables| == |counts| && bs > 0
            && (var n := Count(counts, turns, i, q);
                && n + m <= |alls[q]| && FinalBlock(n, bs) < |tables[q]| && tables[q][FinalBlock(n, bs)] < |ssm|
                && (var s0 := LoadedState(l, TurnsSsm(l, alls, ssm, tables, bs, counts, turns, i), tables[q], bs, n);
                    StepOutputs(l, s0, alls[q], n, m)))
  {
    hide FinalBlock, Cached, Planned, Injective, TurnsSsm, LoadedState, Count, StepOutputs, StateAt;
    PlannedAt(alls, tables, bs, counts, |ssm|, turns, i);
    var q, m := turns[i].request, turns[i].tokens;
    var n := Count(counts, turns, i, q);
    TurnsKeepCache(l, alls, ssm, tables, bs, counts, turns, i, q);
    LoadedRight(l, alls[q], TurnsSsm(l, alls, ssm, tables, bs, counts, turns, i), tables[q], bs, n);
    StepOutputsAre(l, alls[q], n, m);
  }
}
