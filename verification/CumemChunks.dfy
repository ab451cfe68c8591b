/** Sizes of allocations and of their chunks in 64-bit arithmetic (csrc/cumem_allocator.cpp). */
module CumemChunks {
  import opened CumemDriver
  import opened Blocks
  import opened Options

  const WORD: nat := 0x1_0000_0000_0000_0000

  const MB: nat := 0x10_0000

  /** `get_memcreate_chunk_size`, from the number of megabytes that is configured, if one is. */
  function MemcreateChunkSize(chunkMb: Option<nat>): (r: nat)
    ensures 0 < r < WORD
  {
    if chunkMb.None? || chunkMb.value == 0 || chunkMb.value > (WORD - 1) / MB then 256 * MB
    else chunkMb.value * MB
  }

  /** What a number of megabytes comes to in bytes: zero and what would not fit in 64 bits count as not configured. */
  lemma {:induction false} ChunkSizeIs(mb: nat)
    ensures MemcreateChunkSize(None) == 0x1000_0000
    ensures MemcreateChunkSize(Some(mb)) == if 1 <= mb <= 0xFFF_FFFF_FFFF then mb * 0x10_0000 else 0x1000_0000
  {
  }

  /** `((x + g - 1) / g) * g` on 64-bit unsigned integers. */
  function RoundUp(x: nat, g: nat): nat
    requires g > 0
  {
    Times(((x + g - 1) % WORD) / g, g)
  }

  function Times(a: nat, b: nat): nat {
    a * b
  }

  /** Rounding up is right unless the sum overflows, and then it is zero. */
  lemma {:induction false} RoundUpIff(x: nat, g: nat)
    requires 0 < x < WORD && 0 < g < WORD
    ensures x + g - 1 < WORD ==> x <= RoundUp(x, g) < x + g && RoundUp(x, g) % g == 0
    ensures RoundUp(x, g) == 0 <==> x + g - 1 >= WORD
  {
    var s := x + g - 1;
    if s < WORD {
      assert s % WORD == s;
      var q := s / g;
      assert s == q * g + s % g;
      DivUnique(q * g, g, q, 0);
    } else {
      assert s % WORD == s - WORD;
      DivUnique(s - WORD, g, 0, s - WORD);
    }
  }

  lemma {:induction false} RoundUpBound(x: nat, g: nat)
    requires g > 0
    ensures RoundUp(x, g) < WORD
  {
    var s := (x + g - 1) % WORD;
    assert s == s / g * g + s % g;
  }

  function NumChunks(aligned: nat, chunk: nat): nat
    requires chunk > 0
  {
    ((aligned + chunk - 1) % WORD) / chunk
  }

  /** With a wrapped sum there are no chunks at all. */
  lemma {:induction false} NumChunksIff(aligned: nat, chunk: nat)
    requires 0 < aligned < WORD && 0 < chunk < WORD
    ensures var n := NumChunks(aligned, chunk);
            && (n == 0 <==> aligned + chunk - 1 >= WORD)
            && (n > 0 ==> Times(n - 1, chunk) < aligned <= Times(n, chunk))
  {
    var s := aligned + chunk - 1;
    if s < WORD {
      assert s % WORD == s;
      var q := s / chunk;
      assert s == q * chunk + s % chunk;
      assert q * chunk > 0;
      assert (q - 1) * chunk == q * chunk - chunk;
    } else {
      assert s % WORD == s - WORD;
      DivUnique(s - WORD, chunk, 0, s - WORD);
    }
  }

  /** The sizes of the chunks of a range of `aligned` bytes. */
  ghost predicate Tiling(sizes: seq<nat>, aligned: nat, chunk: nat) {
    && sizes != [] && Positive(sizes)
    && Sum(sizes, |sizes|) == aligned
    && (forall i :: 0 <= i < |sizes| - 1 ==> sizes[i] == chunk)
    && sizes[|sizes| - 1] <= chunk
  }

  /** The loop that fills `chunk_sizes`. */
  method ChunkSizes(aligned: nat, chunk: nat) returns (sizes: seq<nat>)
    requires 0 < aligned < WORD && 0 < chunk < WORD
    ensures aligned + chunk - 1 < WORD ==> Tiling(sizes, aligned, chunk)
    ensures aligned + chunk - 1 >= WORD ==> sizes == []
    ensures |sizes| == NumChunks(aligned, chunk)
  {
    NumChunksIff(aligned, chunk);
    var n := NumChunks(aligned, chunk);
    hide Times, NumChunks, Sum;
    TimesNext(0, chunk);
    sizes := [];
    SumNone(sizes);
    for i := 0 to n
      invariant |sizes| == i && Positive(sizes)
      invariant Sum(sizes, i) == if i < n || n == 0 then Times(i, chunk) else aligned
      invariant forall k :: 0 <= k < i && k < n - 1 ==> sizes[k] == chunk
      invariant i > 0 ==> sizes[i - 1] <= chunk
    {
      TimesNext(i, chunk);
      TimesMonotone(i, n - 1, chunk);
      if i < n - 1 {
        TimesMonotone(i + 1, n - 1, chunk);
      }
      var left := Wrapped(aligned - Times(i, chunk));
      SumAppend(sizes, if left < chunk then left else chunk);
      sizes := sizes + [if left < chunk then left else chunk];
    }
  }

  /** A subtraction of 64-bit unsigned integers. */
  function Wrapped(x: int): (r: nat)
    ensures 0 <= x < WORD ==> r == x
  {
    x % WORD
  }

  lemma {:induction false} TimesMonotone(i: nat, j: nat, c: nat)
    requires i <= j
    ensures Times(i, c) <= Times(j, c)
  {
    assert (j - i) * c >= 0;
    assert j * c == i * c + (j - i) * c;
  }

  lemma {:induction false} TimesNext(i: nat, c: nat)
    ensures Times(0, c) == 0 && Times(i + 1, c) == Times(i, c) + c
  {
  }

  lemma {:induction false} SumNone(sizes: seq<nat>)
    ensures Sum(sizes, 0) == 0
  {
  }

  lemma {:induction false} SumPrefix(sizes: seq<nat>, all: seq<nat>, i: nat)
    requires i <= |sizes| && sizes <= all
    ensures Sum(all, i) == Sum(sizes, i)
  {
    if i == 0 {
    } else {
      SumPrefix(sizes, all, i - 1);
    }
  }

  lemma {:induction false} SumAppend(sizes: seq<nat>, x: nat)
    ensures Sum(sizes + [x], |sizes| + 1) == Sum(sizes, |sizes|) + x
  {
    SumPrefix(sizes, sizes + [x], |sizes|);
  }

  /** Chunks of a range that is a multiple of the granularity are multiples of it. */
  lemma {:induction false} ChunksAligned(sizes: seq<nat>, aligned: nat, chunk: nat, g: nat, i: nat)
    requires Tiling(sizes, aligned, chunk) && g > 0 && aligned % g == 0 && chunk % g == 0 && i < |sizes|
    ensures sizes[i] % g == 0
  {
    if i == |sizes| - 1 {
      PrefixAligned(sizes, aligned, chunk, g, i);
      ModSub(aligned, Sum(sizes, i), g);
    }
  }

  lemma {:induction false} PrefixAligned(sizes: seq<nat>, aligned: nat, chunk: nat, g: nat, i: nat)
    requires Tiling(sizes, aligned, chunk) && g > 0 && chunk % g == 0 && i < |sizes|
    ensures Sum(sizes, i) % g == 0
  {
    if i == 0 {
    } else {
      PrefixAligned(sizes, aligned, chunk, g, i - 1);
      ModAdd(Sum(sizes, i - 1), chunk, g);
    }
  }

  lemma {:induction false} ModAdd(x: nat, y: nat, g: nat)
    requires g > 0 && x % g == 0 && y % g == 0
    ensures (x + y) % g == 0
  {
    assert x + y == (x / g + y / g) * g;
    DivUnique(x + y, g, x / g + y / g, 0);
  }

  lemma {:induction false} ModSub(x: nat, y: nat, g: nat)
    requires g > 0 && x % g == 0 && y % g == 0 && y <= x
    ensures (x - y) % g == 0
  {
    assert x - y == (x / g - y / g) * g;
    DivUnique(x - y, g, x / g - y / g, 0);
  }
}
