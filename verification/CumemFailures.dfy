/** Runs of the allocator (csrc/cumem_allocator.cpp, ROCm path) in which a failure leaves something behind. */
module CumemFailures {
  import opened CumemAllocator
  import opened CumemChunks
  import opened CumemDriver
  import opened CumemRuns
  import opened CumemSound
  import opened Options

  const TWO_MB: nat := 0x20_0000

  lemma {:induction false} EmptyInv()
    ensures Inv(State(Driver(map[], {}, map[]), map[])) && Sound(Driver(map[], {}, map[]))
  {
  }

  /** A refused `my_malloc` leaves an error code, and waking an allocation after it loses a handle.  The exception that
      `python_create_and_map` raises clears the code, but not the handle. */
  method RefusedThenWake(a: Allocator, p: nat, size: nat, chunkMb: Option<nat>, granularity: nat) returns (h: nat)
    requires size < WORD && 0 < granularity < WORD
    requires a.Valid() && a.Recorded() && Sound(a.d) && Right(a.View(), p) && a.error == 0 && a.table[p].asleep
    requires Answer(a.answers, a.calls) != 0 && Answer(a.answers, a.calls + 1) == 0
    modifies a
    ensures a.Valid() && a.error == 0
    ensures h !in old(a.d).live && a.d == old(a.d).(live := old(a.d).live + {h})
    ensures Overwritten(old(a.table), a.table, p) && Right(a.View(), p) && (old(Inv(a.View())) ==> !Inv(a.View()))
  {
    hide Inv, Sound, Right, RoundUp, Granted, MallocStep, WakeStep, ChunksLost, Tiling, StoredCount, Fresh, Refilled;
    hide RecordedBelow;
    ghost var s := a.View();
    RightRecord(s, p);
    assert forall x :: x in a.d.live ==> x < a.next;
    var r := a.MyMalloc(size, chunkMb, granularity);
    assert a.View() == s;
    h := a.next;
    var ok := a.Wake(p);
  }

  /** From the start: an allocation is made and put to sleep, another is refused, and waking the first leaves
      a handle alive although every allocation is asleep. */
  method LosesHandle() returns (a: Allocator, h: nat)
    ensures a.error == 0 && a.d.live == {h} && a.d.mapped == map[]
    ensures a.table.Keys == {0} && a.table[0].asleep
  {
    hide Inv, Sound, Right, Spares, RoundUp, Granted, Tiling, CanReserve, Handles, Tiles, TileKeys, NumChunks;
    hide RecordedBelow, Forgotten;
    a := new Allocator([0, 0, 0, 0, 0, 0, 2], []);
    EmptyInv();
    OneChunk();
    ServedFirst(a);
    var r := a.MyMalloc(1, None, TWO_MB);
    ghost var s1 := a.View();
    OneSize(s1.table[0].sizes, TWO_MB, 256 * MB);
    assert a.calls == 5;
    var ok := a.Sleep(0);
    ghost var s2 := a.View();
    SparesSound(s1, s2, 0);
    NothingAwake(s2);
    h := RefusedThenWake(a, 0, 1, None, TWO_MB);
  }

  lemma {:induction false} SparesSound(s: State, s': State, p: nat)
    requires Spares(s, s', p)
    ensures Sound(s'.d)
  {
  }

  /** From the start: an allocation is made and woken while it is awake.  That fails, and its record has a handle that
      is not live, while the handle that its chunk is mapped under is in no record. */
  method OverwritesHandle() returns (a: Allocator, h: nat, other: nat)
    ensures a.error == 0 && a.d.live == {h} && a.d.mapped == map[0 := Mapping(TWO_MB, h)]
    ensures a.table == map[0 := Allocation(TWO_MB, [TWO_MB], [other], false)] && other != h && !Inv(a.View())
  {
    hide Inv, Sound, Right, Spares, RoundUp, Granted, Tiling, CanReserve, NumChunks, RecordedBelow, Forgotten;
    hide WellSized, MallocStep, StoredCount, Fresh, Refilled;
    a := new Allocator([], []);
    EmptyInv();
    OneChunk();
    ServedFirst(a);
    ghost var s0 := a.View();
    var r := a.MyMalloc(1, None, TWO_MB);
    ghost var s1 := a.View();
    OneSize(s1.table[0].sizes, TWO_MB, 256 * MB);
    OnlyChunkOf(s0, s1);
    h, other := a.table[0].handles[0], a.next;
    assert h in a.d.live;
    OneStored(a.answers, a.calls, h, other);
    var ok := a.Wake(0);
  }

  /** The first allocation, of one chunk. */
  lemma {:induction false} OnlyChunkOf(s: State, s': State)
    requires s == State(Driver(map[], {}, map[]), map[]) && 0 in s'.table && MallocStep(s, s', 0, s'.table[0])
    requires s'.table[0].size == TWO_MB && |s'.table[0].sizes| == 1
    ensures |s'.table[0].handles| == 1
    ensures var h := s'.table[0].handles[0];
            && s'.d.live == {h} && s'.d.mapped == map[0 := Mapping(TWO_MB, h)]
            && s'.table == map[0 := Allocation(TWO_MB, [TWO_MB], [h], false)]
  {
    var t := s'.table[0];
    assert Sum(t.sizes, 1) == Sum(t.sizes, 0) + t.sizes[0] && Sum(t.sizes, 0) == 0;
    assert Handles(t.handles, 1) == {t.handles[0]};
    assert Tiles(0, t.sizes, t.handles, 0) == map[];
    assert Tiles(0, t.sizes, t.handles, 1) == map[0 := Mapping(TWO_MB, t.handles[0])];
    assert t.sizes == [TWO_MB] && t.handles == [t.handles[0]];
  }

  lemma {:induction false} OneStored(answers: seq<nat>, c: nat, h: nat, next: nat)
    requires answers == []
    ensures Answer(answers, c) == 0 && StoredCount(answers, c, 1, 0) == 1
    ensures Refilled([h], Fresh(next, 1)) == [next]
  {
    StoredNone(answers, c, 1, 0);
  }

  lemma {:induction false} OneChunk()
    ensures MemcreateChunkSize(None) == 256 * MB
    ensures RoundUp(1, TWO_MB) == TWO_MB && RoundUp(256 * MB, TWO_MB) == 256 * MB
    ensures NumChunks(TWO_MB, 256 * MB) == 1
  {
  }

  lemma {:induction false} ServedFirst(a: Allocator)
    requires (a.answers == [] || a.answers == [0, 0, 0, 0, 0, 0, 2]) && a.places == [] && a.calls == 0
    ensures a.MallocFate(Driver(map[], {}, map[]), 0, 0, 1, None, TWO_MB) == Served(0)
    ensures a.ReserveCalls(Driver(map[], {}, map[]), 1, RoundUp(1, TWO_MB), TWO_MB) == 1
  {
    OneChunk();
    hide RoundUp, NumChunks, MemcreateChunkSize;
    var d := Driver(map[], {}, map[]);
    assert Fits(d, 0, TWO_MB, TWO_MB);
    assert a.Reservation(d, 1, TWO_MB, TWO_MB) == Some(0);
    assert Granted(a.answers, 2, 2);
  }

  lemma {:induction false} OneSize(sizes: seq<nat>, aligned: nat, chunk: nat)
    requires Tiling(sizes, aligned, chunk) && aligned <= chunk
    ensures |sizes| == 1
  {
    if |sizes| > 1 {
      assert sizes[0] == chunk;
      SumIncreases(sizes, 0, 1);
      SumIncreases(sizes, 1, |sizes|);
    }
  }

  /** From the start: a create that fails leaves the record of an address that is not reserved. */
  method LeavesRecord() returns (a: Allocator, r: Outcome)
    ensures r == Null && a.error != 0 && a.d == Driver(map[], {}, map[]) && a.table.Keys == {0}
  {
    hide Inv, Sound, RoundUp, Granted, Tiling, CanReserve, NumChunks, MallocStep, RecordedBelow;
    a := new Allocator([0, 0, 2], []);
    EmptyInv();
    UnmappedFirst(a);
    r := a.MyMalloc(1, None, TWO_MB);
  }

  lemma {:induction false} UnmappedFirst(a: Allocator)
    requires a.answers == [0, 0, 2] && a.places == [] && a.calls == 0
    ensures a.MallocFate(Driver(map[], {}, map[]), 0, 0, 1, None, TWO_MB) == Unmapped(0)
  {
    OneChunk();
    hide RoundUp, NumChunks, MemcreateChunkSize;
    var d := Driver(map[], {}, map[]);
    assert Fits(d, 0, TWO_MB, TWO_MB);
    assert a.Reservation(d, 1, TWO_MB, TWO_MB) == Some(0);
    assert Answer(a.answers, 2) != 0;
    assert !Granted(a.answers, 2, 2);
  }

  /** From the start: the first reservation is refused, and the retry serves the call. */
  method ServedByRetry() returns (a: Allocator, r: Outcome)
    ensures r == Address(TWO_MB) && a.error == 0 && a.calls == 6 && a.table.Keys == {TWO_MB}
    ensures Inv(a.View())
  {
    hide Inv, Sound, Right, Spares, RoundUp, Granted, Tiling, CanReserve, NumChunks, RecordedBelow, Forgotten;
    hide WellSized, MallocStep;
    a := new Allocator([0, 2, 0], [0, 0, TWO_MB]);
    EmptyInv();
    OneChunk();
    TwoMegabytes();
    RetryFits(a);
    ghost var s := a.View();
    r := a.MyMalloc(TWO_MB, None, TWO_MB);
    OneSize(a.table[TWO_MB].sizes, TWO_MB, 256 * MB);
    StepTable(s, a.View(), TWO_MB);
  }

  lemma {:induction false} StepTable(s: State, s': State, p: nat)
    requires p in s'.table && MallocStep(s, s', p, s'.table[p])
    ensures s'.table.Keys == s.table.Keys + {p}
  {
  }

  lemma {:induction false} TwoMegabytes()
    ensures RoundUp(TWO_MB, TWO_MB) == TWO_MB
  {
  }

  lemma {:induction false} RetryFits(a: Allocator)
    requires a.answers == [0, 2, 0] && a.places == [0, 0, TWO_MB] && a.calls == 0
    ensures a.MallocFate(Driver(map[], {}, map[]), 0, 0, TWO_MB, None, TWO_MB) == Served(TWO_MB)
    ensures a.ReserveCalls(Driver(map[], {}, map[]), 1, RoundUp(TWO_MB, TWO_MB), TWO_MB) == 2
  {
    OneChunk();
    TwoMegabytes();
    hide RoundUp, NumChunks, MemcreateChunkSize;
    var d := Driver(map[], {}, map[]);
    assert Fits(d, TWO_MB, TWO_MB, TWO_MB);
    assert a.Reservation(d, 1, TWO_MB, TWO_MB) == Some(TWO_MB);
    assert Granted(a.answers, 3, 2);
  }

  // ---- A chunk size of zero -----------------------------------------------------------------

  /** The largest number of megabytes that the guard against overflow admits. */
  const LARGEST_CHUNK_MB: nat := 0xFFF_FFFF_FFFF

  /** With a granularity of two megabytes the chunk size is zero for that one setting. */
  lemma {:induction false} ZeroChunkIff(chunkMb: Option<nat>)
    ensures RoundUp(MemcreateChunkSize(chunkMb), TWO_MB) == 0 <==> chunkMb == Some(LARGEST_CHUNK_MB)
  {
    hide RoundUp;
    RoundUpIff(MemcreateChunkSize(chunkMb), TWO_MB);
  }

  /** From the start: that setting makes every allocation that gets an address divide by zero. */
  method DividesByZero(size: nat) returns (a: Allocator, r: Outcome)
    requires 0 < size <= TWO_MB
    ensures r == DivisionByZero && a.error == 0 && a.d.reserved == map[0 := TWO_MB]
  {
    hide Inv, Sound, RoundUp, Granted, Tiling, CanReserve, NumChunks, MallocStep, RecordedBelow;
    a := new Allocator([], []);
    EmptyInv();
    DividesFirst(a, size);
    r := a.MyMalloc(size, Some(LARGEST_CHUNK_MB), TWO_MB);
  }

  lemma {:induction false} DividesFirst(a: Allocator, size: nat)
    requires a.answers == [] && a.places == [] && a.calls == 0 && 0 < size <= TWO_MB
    ensures a.MallocFate(Driver(map[], {}, map[]), 0, 0, size, Some(LARGEST_CHUNK_MB), TWO_MB) == Divides(0)
    ensures RoundUp(size, TWO_MB) == TWO_MB
  {
    ZeroChunkIff(Some(LARGEST_CHUNK_MB));
    RoundUpIff(size, TWO_MB);
    hide RoundUp, MemcreateChunkSize;
    var d := Driver(map[], {}, map[]);
    assert RoundUp(size, TWO_MB) == TWO_MB;
    assert Fits(d, 0, TWO_MB, TWO_MB);
    assert a.Reservation(d, 1, TWO_MB, TWO_MB) == Some(0);
  }
}
