/** The allocator's calls into the driver and its own operations (csrc/cumem_allocator.cpp, ROCm
    path).  Creating, mapping, reserving and setting access may fail at any time, and any free address may be
    chosen: the driver's answers are parameters.  Undoing succeeds on what is there.  A status of 0 is success. */
module CumemAllocator {
  import opened CumemDriver
  import opened CumemChunks
  import opened CumemRuns
  import opened CumemSound
  import opened Options

  datatype Outcome = Address(addr: nat) | Null | DivisionByZero

  const NOT_SUPPORTED: nat := 801

  /** The driver's answer to call `c`.  Calls beyond the list succeed, so that lists describe every finite run. */
  function Answer(answers: seq<nat>, c: nat): nat {
    if c < |answers| then answers[c] else 0
  }

  /** The driver grants `n` calls from call `c` on. */
  predicate Granted(answers: seq<nat>, c: nat, n: nat) {
    forall k :: c <= k < c + n ==> Answer(answers, k) == 0
  }

  lemma {:induction false} GrantedTwice(answers: seq<nat>, c: nat, n: nat)
    ensures Granted(answers, c, 2 * n) <==> Granted(answers, c, n) && Granted(answers, c + n, n)
    ensures Granted(answers, c, 2 * n + 1) <==> Granted(answers, c, 2 * n) && Answer(answers, c + 2 * n) == 0
  {
  }

  /** How many of `n` calls from call `c` on the driver grants before it refuses one. */
  function Leading(answers: seq<nat>, c: nat, n: nat): (k: nat)
    ensures k <= n
    decreases n
  {
    if n == 0 || Answer(answers, c) != 0 then 0 else 1 + Leading(answers, c + 1, n - 1)
  }

  lemma {:induction false} LeadingIs(answers: seq<nat>, c: nat, n: nat, k: nat)
    requires k <= n && Granted(answers, c, k) && (k < n ==> Answer(answers, c + k) != 0)
    ensures Leading(answers, c, n) == k
    decreases n
  {
    if n == 0 || Answer(answers, c) != 0 {
      assert k > 0 ==> Answer(answers, c) == 0;
    } else {
      assert k > 0;
      LeadingIs(answers, c + 1, n - 1, k - 1);
    }
  }

  lemma {:induction false} LeadingOne(answers: seq<nat>, c: nat, n: nat)
    requires n > 0
    ensures Leading(answers, c, n) > 0 <==> Answer(answers, c) == 0
  {
  }

  lemma {:induction false} GrantedNext(answers: seq<nat>, c: nat, i: nat, n: nat)
    requires i < n
    ensures Granted(answers, c, i + 1) <==> Granted(answers, c, i) && Answer(answers, c + i) == 0
    ensures Granted(answers, c, n) ==> Answer(answers, c + i) == 0
  {
  }

  lemma {:induction false} NoneCreated(d: Driver, answers: seq<nat>, c: nat)
    ensures Granted(answers, c, 0) && Handles([], 0) == {} && d.(live := d.live + Handles([], 0)) == d
  {
  }

  /** How many handles a failing or succeeding `create_and_map` stores: with an error code left over it stops after
      the first. */
  function StoredCount(answers: seq<nat>, c: nat, n: nat, error: nat): (k: nat)
    ensures k <= n
  {
    var k := Leading(answers, c, n);
    if error != 0 && k > 1 then 1 else k
  }

  /** Nothing is stored exactly when the first create is refused. */
  lemma {:induction false} StoredNone(answers: seq<nat>, c: nat, n: nat, error: nat)
    requires n > 0
    ensures StoredCount(answers, c, n, error) == 0 <==> Answer(answers, c) != 0
    ensures Granted(answers, c, 2 * n) ==> Answer(answers, c) == 0
  {
    LeadingOne(answers, c, n);
  }

  /** `k` handles that were not used before. */
  function Fresh(next: nat, k: nat): (hs: seq<nat>)
    ensures |hs| == k
  {
    seq(k, i requires 0 <= i < k => next + i)
  }

  lemma {:induction false} FreshNext(next: nat, k: nat)
    ensures Fresh(next, 0) == [] && Fresh(next, k + 1) == Fresh(next, k) + [next + k]
  {
  }

  lemma {:induction false} FreshAre(next: nat, k: nat)
    ensures DistinctHandles(Fresh(next, k)) && forall i :: 0 <= i < k ==> next <= Fresh(next, k)[i] < next + k
  {
  }

  /** A record's handles, of which the first were overwritten. */
  function Refilled(handles: seq<nat>, stored: seq<nat>): (r: seq<nat>)
    requires |stored| <= |handles|
    ensures |r| == |handles| && forall i :: 0 <= i < |r| ==> r[i] == if i < |stored| then stored[i] else handles[i]
  {
    stored + handles[|stored|..]
  }

  lemma {:induction false} RefilledAll(handles: seq<nat>, stored: seq<nat>)
    requires |stored| == |handles|
    ensures Refilled(handles, stored) == stored
  {
  }

  // ---- Records with handles that are not to come --------------------------------------------

  ghost predicate RecordedBelow(table: map<nat, Allocation>, next: nat) {
    forall q, h :: q in table && h in table[q].handles ==> h < next
  }

  /** New handles are in no record yet. */
  lemma {:induction false} FreshNew(table: map<nat, Allocation>, next: nat, k: nat)
    requires RecordedBelow(table, next)
    ensures NewHandles(table, Fresh(next, k))
  {
  }

  lemma {:induction false} FreshRecorded(table: map<nat, Allocation>, next: nat, k: nat, p: nat, t: Allocation)
    requires RecordedBelow(table, next) && t.handles == Fresh(next, k)
    ensures NewHandles(table, t.handles) && RecordedBelow(table[p := t], next + k)
  {
    FreshNew(table, next, k);
  }

  lemma {:induction false} RefilledRecorded(table: map<nat, Allocation>, next: nat, k: nat, p: nat, t: Allocation)
    requires RecordedBelow(table, next) && p in table && k <= |table[p].handles|
    requires t.handles == Fresh(next, k) || t.handles == Refilled(table[p].handles, Fresh(next, k))
    ensures RecordedBelow(table[p := t], next + k)
  {
    forall h | h in t.handles
      ensures h < next + k
    {
      assert h in Fresh(next, k) || h in table[p].handles;
    }
  }

  lemma {:induction false} RecordRemoved(table: map<nat, Allocation>, next: nat, p: nat)
    requires RecordedBelow(table, next)
    ensures RecordedBelow(table - {p}, next)
  {
  }

  lemma {:induction false} SameRecorded(table: map<nat, Allocation>, next: nat, p: nat)
    requires RecordedBelow(table, next) && p in table
    ensures RecordedBelow(table[p := table[p].(asleep := true)], next)
  {
  }

  /** A range that can be reserved at an address with this alignment, or with any if it is 0. */
  predicate Fits(d: Driver, addr: nat, size: nat, alignment: nat) {
    size > 0 && CanReserve(d, addr, size) && (alignment != 0 ==> addr % alignment == 0)
  }

  lemma {:induction false} FitsAnyway(d: Driver, addr: nat, size: nat, alignment: nat)
    requires Fits(d, addr, size, alignment)
    ensures Fits(d, addr, size, 0)
  {
  }

  /** Nothing is mapped in a range that was free to reserve. */
  lemma {:induction false} FreshRangeUnmapped(d: Driver, addr: nat, size: nat)
    requires DriverOk(d) && CanReserve(d, addr, size) && size > 0
    ensures addr !in d.reserved
    ensures RangeFree(d, addr, size)
  {
  }

  /** What becomes of a call of `my_malloc`. */
  datatype Fate =
    | Refused                     // nothing has happened
    | Divides(addr: nat)          // by a chunk size of zero, with the address reserved
    | Unmapped(addr: nat)         // the chunks were undone
    | NoAccess(addr: nat)         // the chunks are mapped, but their access could not be set
    | Served(addr: nat)

  class Allocator {
    const answers: seq<nat>     // the status with which the driver answers its k-th call that can fail
    const places: seq<nat>      // the address that it chooses there
    var calls: nat              // how many of those calls were made
    var d: Driver
    var next: nat               // handles are not reused
    var error: nat              // the global error code
    var table: map<nat, Allocation>

    constructor (answers: seq<nat>, places: seq<nat>)
      ensures this.answers == answers && this.places == places && calls == 0 && error == 0
      ensures Valid() && Recorded() && View() == State(Driver(map[], {}, map[]), map[])
    {
      this.answers, this.places := answers, places;
      calls, next, error := 0, 0, 0;
      d, table := Driver(map[], {}, map[]), map[];
    }

    ghost predicate Valid()
      reads `d, `next
    {
      forall h :: h in d.live ==> h < next
    }

    /** No record has a handle that is still to come. */
    ghost predicate Recorded()
      reads `table, `next
    {
      RecordedBelow(table, next)
    }

    function View(): State
      reads this
    {
      State(d, table)
    }

    // ---- The driver -------------------------------------------------------------------------

    method MemCreate() returns (status: nat, handle: nat)
      requires Valid()
      modifies `d, `next, `calls
      ensures Valid() && calls == old(calls) + 1 && handle == old(next)
      ensures status == Answer(answers, old(calls))
      ensures status != 0 ==> d == old(d) && next == old(next)
      ensures status == 0 ==> d == old(d).(live := old(d).live + {handle}) && next == handle + 1
    {
      status, handle := Answer(answers, calls), next;
      calls := calls + 1;
      if status == 0 {
        d := d.(live := d.live + {handle});
        next := next + 1;
      }
    }

    method MemRelease(handle: nat) returns (status: nat)
      modifies `d
      ensures d == old(d).(live := old(d).live - {handle})
      ensures status == if handle in old(d).live then 0 else 1
    {
      status := if handle in d.live then 0 else 1;
      d := d.(live := d.live - {handle});
    }

    method MemMap(addr: nat, size: nat, handle: nat) returns (status: nat)
      modifies `d, `calls
      ensures calls == old(calls) + 1
      ensures status == 0 <==> Answer(answers, old(calls)) == 0 && CanMap(old(d), addr, size)
      ensures d == if status == 0 then old(d).(mapped := old(d).mapped[addr := Mapping(size, handle)]) else old(d)
    {
      status := Answer(answers, calls);
      calls := calls + 1;
      if status == 0 && !CanMap(d, addr, size) {
        status := 1;
      }
      if status == 0 {
        d := d.(mapped := d.mapped[addr := Mapping(size, handle)]);
      }
    }

    method MemUnmap(addr: nat, size: nat) returns (status: nat)
      modifies `d
      ensures status == if addr in old(d).mapped && old(d).mapped[addr].size == size then 0 else 1
      ensures d == if status == 0 then old(d).(mapped := old(d).mapped - {addr}) else old(d)
    {
      status := 1;
      if addr in d.mapped && d.mapped[addr].size == size {
        status := 0;
        d := d.(mapped := d.mapped - {addr});
      }
    }

    /** `hint` is the address asked for; the driver may choose another. */
    method AddressReserve(size: nat, alignment: nat, hint: nat) returns (status: nat, addr: nat)
      modifies `d, `calls
      ensures calls == old(calls) + 1 && addr == Answer(places, old(calls))
      ensures status == 0 <==> Answer(answers, old(calls)) == 0 && Fits(old(d), addr, size, alignment)
      ensures d == if status == 0 then WithRange(old(d), addr, size) else old(d)
    {
      status, addr := Answer(answers, calls), Answer(places, calls);
      calls := calls + 1;
      if status == 0 && !Fits(d, addr, size, alignment) {
        status := 1;
      }
      if status == 0 {
        d := WithRange(d, addr, size);
      }
    }

    /** A range can be freed once nothing is mapped in it. */
    method AddressFree(addr: nat, size: nat) returns (status: nat)
      modifies `d
      ensures status == 0 <==> && addr in old(d).reserved && old(d).reserved[addr] == size
                               && RangeFree(old(d), addr, size)
      ensures d == if status == 0 then WithoutRange(old(d), addr) else old(d)
    {
      status := 1;
      if addr in d.reserved && d.reserved[addr] == size && RangeFree(d, addr, size) {
        status := 0;
        d := WithoutRange(d, addr);
      }
    }

    /** Access can be set on a range that is mapped throughout. */
    method MemSetAccess(addr: nat, size: nat) returns (status: nat)
      modifies `calls
      ensures calls == old(calls) + 1
      ensures status == 0 <==> Answer(answers, old(calls)) == 0 && Covered(d, addr, size)
    {
      status := Answer(answers, calls);
      calls := calls + 1;
      if status == 0 && !Covered(d, addr, size) {
        status := 1;
      }
    }

    /** `CUDA_CHECK`: an error is recorded, and a success does not clear an earlier one. */
    method Check(status: nat)
      modifies `error
      ensures error == if status != 0 then status else old(error)
    {
      if status != 0 {
        error := status;
      }
    }

    /** The address that `reserve_rocm_address` gets from call `c` on, if any. */
    function Reservation(d: Driver, c: nat, size: nat, alignment: nat): Option<nat> {
      if Answer(answers, c) == 0 && Fits(d, Answer(places, c), size, alignment) then Some(Answer(places, c))
      else if alignment != 0 && Answer(answers, c + 1) == 0 && Fits(d, Answer(places, c + 1), size, alignment)
      then Some(Answer(places, c + 1))
      else None
    }

    /** How many calls it makes when it gets one. */
    function ReserveCalls(d: Driver, c: nat, size: nat, alignment: nat): nat {
      if Answer(answers, c) == 0 && Fits(d, Answer(places, c), size, alignment) then 1 else 2
    }

    /** `reserve_rocm_address`: retries without the alignment, but only accepts an aligned address. */
    method ReserveRocmAddress(size: nat, alignment: nat, hint: nat) returns (status: nat, addr: nat)
      requires DriverOk(d)
      modifies `d, `calls
      ensures status == 0 <==> old(Reservation(d, calls, size, alignment)).Some?
      ensures status != 0 ==> d == old(d)
      ensures status == 0 ==>
                && addr == old(Reservation(d, calls, size, alignment)).value && Fits(old(d), addr, size, alignment)
                && d == WithRange(old(d), addr, size)
                && calls == old(calls + ReserveCalls(d, calls, size, alignment))
      ensures alignment == 0 ==> calls == old(calls) + 1
      ensures var first, second := Answer(places, old(calls)), Answer(places, old(calls) + 1);
              if Answer(answers, old(calls)) == 0 && size > 0 && CanReserve(old(d), first, size) &&
                 (alignment != 0 ==> first % alignment == 0)
              then status == 0 && addr == first && calls == old(calls) + 1
              else if alignment != 0 && Answer(answers, old(calls) + 1) == 0 && size > 0 &&
                      CanReserve(old(d), second, size) && second % alignment == 0
              then status == 0 && addr == second && calls == old(calls) + 2
              else status != 0 && calls == old(calls) + (if alignment == 0 then 1 else 2)
    {
      status, addr := AddressReserve(size, alignment, hint);
      if status == 0 || alignment == 0 {
        return;
      }
      status, addr := AddressReserve(size, 0, hint);
      if status != 0 || addr % alignment == 0 {
        return;
      }
      FreshRangeUnmapped(old(d), addr, size);
      ReserveThenFree(old(d), addr, size);
      var s := AddressFree(addr, size);
      status := NOT_SUPPORTED;
    }

    // ---- Creating and mapping chunks, with rollback -----------------------------------------

    /** The first loop of `create_and_map`, with the handles that it stores.  It succeeds exactly when no error was
        left over and every create does.  A failing create undoes the earlier ones.  With an error code left over,
        the first handle is created, and kept, if the driver grants it. */
    method CreateAll(n: nat) returns (handles: seq<nat>)
      requires Valid()
      modifies `d, `next, `error, `calls
      ensures Valid() && next >= old(next)
      ensures handles == Fresh(old(next), StoredCount(answers, old(calls), n, old(error)))
      ensures next == old(next) + |handles|
      ensures error == 0 <==> old(error) == 0 && Granted(answers, old(calls), n)
      ensures error == 0 ==>
                |handles| == n && d == old(d).(live := old(d).live + Handles(handles, n)) && calls == old(calls) + n
      ensures old(error) == 0 && error != 0 ==> d == old(d)
      ensures old(error) != 0 ==>
                && d == old(d).(live := old(d).live + if handles == [] then {} else {old(next)})
                && (handles == [] <==> n == 0 || Answer(answers, old(calls)) != 0)
                && (d != old(d) <==> n > 0 && Answer(answers, old(calls)) == 0)
    {
      hide Granted, Handles, Fresh, Leading;
      handles := [];
      ghost var d0, next0, c := d, next, calls;
      assert forall h :: h in d0.live ==> h < next0;
      FreshNext(next0, 0);
      NoneCreated(d0, answers, c);
      for i := 0 to n
        invariant Valid() && handles == Fresh(next0, i)
        invariant if i == 0 then error == old(error) else error == old(error) == 0
        invariant calls == c + i && next == next0 + i && Granted(answers, c, i)
        invariant d == d0.(live := d0.live + Handles(handles, i))
      {
        FreshNext(next0, i);
        FreshAre(next0, i);
        GrantedNext(answers, c, i, n);
        var status, handle := MemCreate();
        Check(status);
        if error != 0 {
          if status == 0 {
            LeadingOne(answers, c, n);
            handles := [handle];
          } else {
            LeadingIs(answers, c, n, i);
            Rollback(handles, i, d0);
          }
          return;
        }
        HandlesNext(handles, handle);
        handles := handles + [handle];
      }
      LeadingIs(answers, c, n, n);
    }

    /** Releases the first `n` handles. */
    method Rollback(handles: seq<nat>, n: nat, ghost d0: Driver)
      requires Valid() && n <= |handles| && d == d0.(live := d0.live + Handles(handles, n))
      requires forall k :: 0 <= k < n ==> handles[k] !in d0.live
      modifies `d
      ensures Valid() && d == d0
    {
      for j := 0 to n
        invariant Valid() && d == d0.(live := (d0.live + Handles(handles, n)) - Handles(handles, j))
      {
        var s := MemRelease(handles[j]);
        assert Handles(handles, j + 1) == Handles(handles, j) + {handles[j]};
      }
    }

    /** The second loop of `create_and_map`, with the unmapping half of its rollback.  With room for the chunks it
        succeeds exactly when every map does. */
    method MapAll(base: nat, sizes: seq<nat>, handles: seq<nat>)
      requires error == 0 && |sizes| == |handles| && Positive(sizes) && DriverOk(d)
      modifies `d, `error, `calls
      ensures error != 0 ==> d == old(d)
      ensures error != 0 && Room(old(d), base, Sum(sizes, |sizes|)) ==> !Granted(answers, old(calls), |sizes|)
      ensures error == 0 ==>
                && d == old(d).(mapped := old(d).mapped + Tiles(base, sizes, handles, |sizes|))
                && TileKeys(base, sizes, |sizes|) !! old(d).mapped.Keys
                && Granted(answers, old(calls), |sizes|) && calls == old(calls) + |sizes|
    {
      hide Tiles, TileKeys, CanMap, DriverOk, Disjoint, Room;
      ghost var d0, c := d, calls;
      ChunksNotEmpty(d0);
      TilesNone(base, sizes, handles);
      var mappedSize := 0;
      for i := 0 to |sizes|
        invariant error == 0 && mappedSize == Sum(sizes, i)
        invariant calls == c + i && Granted(answers, c, i)
        invariant d == d0.(mapped := d0.mapped + Tiles(base, sizes, handles, i))
        invariant TileKeys(base, sizes, i) !! d0.mapped.Keys
      {
        ghost var d1 := d;
        var status := MemMap(base + mappedSize, sizes[i], handles[i]);
        Check(status);
        if error != 0 {
          if Room(d0, base, Sum(sizes, |sizes|)) {
            ChunkFits(d0, d1, base, sizes, handles, i);
          }
          UnmapAll(base, sizes, handles, i, d0);
          return;
        }
        MapNext(d0.mapped, base, sizes, handles, i);
        MapsElsewhere(d1, base + mappedSize, sizes[i]);
        assert base + mappedSize !in d0.mapped by {
          KeysKept(d0.mapped, base, sizes, handles, i);
        }
        mappedSize := mappedSize + sizes[i];
      }
    }

    /** Unmaps the first `n` chunks. */
    method UnmapAll(base: nat, sizes: seq<nat>, ghost handles: seq<nat>, n: nat, ghost d0: Driver)
      requires n <= |sizes| == |handles| && Positive(sizes)
      requires d == d0.(mapped := d0.mapped + Tiles(base, sizes, handles, n))
      requires TileKeys(base, sizes, n) !! d0.mapped.Keys
      modifies `d
      ensures d == d0
    {
      hide Tiles, TileKeys;
      TilesNone(base, sizes, handles);
      var unmapped := 0;
      for j := 0 to n
        invariant unmapped == Sum(sizes, j)
        invariant d == d0.(mapped := (d0.mapped + Tiles(base, sizes, handles, n)) - TileKeys(base, sizes, j))
      {
        UnmapNext(d0.mapped, base, sizes, handles, n, j);
        var status := MemUnmap(base + unmapped, sizes[j]);
        unmapped := unmapped + sizes[j];
      }
      UnmappedAll(d0.mapped, base, sizes, handles, n);
    }

    /** `create_and_map`.  `mappedAll` tells a failure of the last step, which has no rollback, from
        the earlier ones. */
    method CreateAndMap(base: nat, size: nat, sizes: seq<nat>) returns (handles: seq<nat>, ghost mappedAll: bool)
      requires Valid() && Positive(sizes) && DriverOk(d)
      modifies `d, `next, `error, `calls
      ensures Valid() && next == old(next) + |handles|
      ensures handles == Fresh(old(next), StoredCount(answers, old(calls), |sizes|, old(error)))
      ensures error == 0 <==> mappedAll && Answer(answers, old(calls) + 2 * |sizes|) == 0 && Covered(d, base, size)
      ensures mappedAll ==> old(error) == 0 && Granted(answers, old(calls), 2 * |sizes|)
      ensures old(error) == 0 && Granted(answers, old(calls), 2 * |sizes|) && Room(old(d), base, Sum(sizes, |sizes|))
              ==> mappedAll
      ensures mappedAll ==>
                && |handles| == |sizes| && TileKeys(base, sizes, |sizes|) !! old(d).mapped.Keys
                && d == Driver(old(d).reserved, old(d).live + Handles(handles, |sizes|),
                               old(d).mapped + Tiles(base, sizes, handles, |sizes|))
                && calls == old(calls) + 2 * |sizes| + 1
      ensures !mappedAll && old(error) == 0 ==> d == old(d)
      ensures old(error) != 0 ==>
                && (handles == [] <==> sizes == [] || Answer(answers, old(calls)) != 0)
                && d == old(d).(live := old(d).live + if handles == [] then {} else {old(next)})
                && (d != old(d) <==> sizes != [] && Answer(answers, old(calls)) == 0)
    {
      hide DriverOk, Room, Granted, Sum, Tiles, TileKeys, Covered, Positive, Fresh, Leading, Handles;
      ghost var d0, next0, c := d, next, calls;
      assert forall h :: h in d0.live ==> h < next0;
      FreshAre(next0, StoredCount(answers, c, |sizes|, error));
      GrantedTwice(answers, c, |sizes|);
      handles := CreateAll(|sizes|);
      mappedAll := false;
      if error != 0 {
        return;
      }
      SameRanges(d0, d, base, Sum(sizes, |sizes|));
      MapAll(base, sizes, handles);
      if error != 0 {
        Rollback(handles, |handles|, d0);
        return;
      }
      mappedAll := true;
      var access := MemSetAccess(base, size);
      Check(access);
    }

    // ---- Operations -------------------------------------------------------------------------

    /** `unmap_and_release`: unmaps what is mapped with the recorded size, releases every handle that is live, and
        records an error unless each chunk was mapped and each handle was live. */
    method UnmapAndRelease(base: nat, sizes: seq<nat>, handles: seq<nat>)
      requires Valid() && |handles| == |sizes| && Positive(sizes)
      modifies `d, `error
      ensures Valid()
      ensures d == Driver(old(d).reserved, old(d).live - Handles(handles, |handles|),
                          old(d).mapped - MatchingKeys(old(d), base, sizes, |sizes|))
      ensures error ==
              if old(AllMatch(d, base, sizes, |sizes|) && AllLive(d, handles, |handles|)) then old(error) else 1
    {
      ghost var d0 := d;
      var offset, firstError := 0, 0;
      MatchingNone(d0, base, sizes);
      for i := 0 to |sizes|
        invariant Valid() && error == old(error) && offset == Sum(sizes, i)
        invariant d == d0.(mapped := d0.mapped - MatchingKeys(d0, base, sizes, i))
        invariant firstError == if AllMatch(d0, base, sizes, i) then 0 else 1
      {
        MatchingNext(d0, base, sizes, i);
        hide AllMatch, MatchingKeys, Matches;
        var status := MemUnmap(base + offset, sizes[i]);
        if status != 0 && firstError == 0 {
          firstError := status;
        }
        offset := offset + sizes[i];
      }
      ghost var d1 := d;
      hide AllMatch, MatchingKeys, Matches, Sum;
      for i := 0 to |sizes|
        invariant Valid() && error == old(error)
        invariant d == d1.(live := d0.live - Handles(handles, i))
        invariant firstError == if AllMatch(d0, base, sizes, |sizes|) && AllLive(d0, handles, i) then 0 else 1
      {
        LiveNext(d0, handles, i);
        var status := MemRelease(handles[i]);
        if status != 0 && firstError == 0 {
          firstError := status;
        }
      }
      if firstError != 0 {
        Check(firstError);
      }
    }

    /** The part of `my_malloc` after an address is reserved: the record, the chunks, and giving the
        address back when the chunks could not be mapped. */
    method MapReserved(addr: nat, aligned: nat, sizes: seq<nat>)
      requires Valid() && error == 0 && DriverOk(d) && Positive(sizes) && aligned > 0
      requires sizes == [] || Sum(sizes, |sizes|) == aligned
      requires addr in d.reserved && d.reserved[addr] == aligned
      requires RangeFree(d, addr, aligned) && Recorded()
      modifies this
      ensures Valid() && Recorded() && addr in table && NewHandles(old(table), table[addr].handles)
      ensures sizes != [] && Granted(answers, old(calls), 2 * |sizes|) ==>
                && NewChunks(old(d), d, old(table), table, addr, aligned, sizes)
                && (error == 0 <==> Answer(answers, old(calls) + 2 * |sizes|) == 0)
      ensures error == 0 ==>
                sizes != [] && Granted(answers, old(calls), 2 * |sizes|) && calls == old(calls) + 2 * |sizes| + 1
      ensures sizes == [] || !Granted(answers, old(calls), 2 * |sizes|) ==>
                && error != 0 && d == WithoutRange(old(d), addr)
                && addr in table && table == old(table)[addr := table[addr]] && table[addr].size == aligned
    {
      hide Room, Granted, DriverOk, NewChunks, Covered, RangeFree, Tiles, TileKeys, Handles, Sum, Positive;
      hide WithoutRange, Fresh, Leading, RecordedBelow, NewHandles, DistinctHandles;
      ghost var d0, next0, table0 := d, next, table;
      assert forall h :: h in d0.live ==> h < next0;
      ghost var stored := StoredCount(answers, calls, |sizes|, error);
      FreshAre(next0, stored);
      ReservedRoom(d0, addr, aligned);
      table := table[addr := Allocation(aligned, sizes, [], false)];
      var handles, mappedAll := CreateAndMap(addr, aligned, sizes);
      var t := Allocation(aligned, sizes, handles, false);
      table := table[addr := t];
      assert table == table0[addr := t];
      FreshRecorded(table0, next0, stored, addr, t);
      if mappedAll && sizes != [] {
        AsNewChunks(d0, d, table0, table, addr, t);
      } else {
        NoChunks(d0, d, addr, aligned);
      }
      if error != 0 {
        var status := AddressFree(addr, aligned);
        Check(status);
      }
    }

    /** What a call of `my_malloc` comes to from call `c` on, once the address is reserved, by the driver's answers. */
    function ChunkFate(addr: nat, c: nat, aligned: nat, chunk: nat): Fate {
      if chunk == 0 then Divides(addr)
      else
        var n := NumChunks(aligned, chunk);
        if n == 0 || !Granted(answers, c, 2 * n) then Unmapped(addr)
        else if Answer(answers, c + 2 * n) != 0 then NoAccess(addr)
        else Served(addr)
    }

    /** The part of `my_malloc` after the chunk size is known. */
    method FillReserved(addr: nat, aligned: nat, chunk: nat, ghost s: State)
      requires Valid() && Recorded() && error == 0 && aligned < WORD && 0 < chunk < WORD
      requires Sound(s.d) && Fits(s.d, addr, aligned, 0) && d == WithRange(s.d, addr, aligned) && table == s.table
      modifies this
      ensures Valid() && Recorded() && SparesAll(s, View()) && addr in table
      ensures var fate := ChunkFate(addr, old(calls), aligned, chunk);
              && (error == 0 <==> fate.Served?) && (Inv(s) ==> (Inv(View()) <==> !fate.Unmapped?))
              && (if fate.Unmapped? then Forgotten(s, View(), addr, table[addr])
                  else
                    && MallocStep(s, View(), addr, table[addr]) && Right(View(), addr)
                    && table[addr].size == aligned && Tiling(table[addr].sizes, aligned, chunk))
              && (fate.Served? ==> calls == old(calls) + 2 * |table[addr].sizes| + 1)
    {
      hide DriverOk, CanReserve, RangeFree, Tiling, NewChunks, MallocStep, Positive, Sum, Sound, Right, Inv;
      hide Granted, NumChunks, WithRange, WithoutRange, Fits, RecordedBelow, NewHandles, SparesAll, Forgotten;
      FreshSpot(s, addr, aligned, 0);
      ReserveThenFree(s.d, addr, aligned);
      var sizes := ChunkSizes(aligned, chunk);
      TilingSums(sizes, aligned, chunk);
      MapReserved(addr, aligned, sizes);
      if sizes != [] && Granted(answers, old(calls), 2 * |sizes|) {
        AsMallocStep(s, View(), addr, aligned, sizes);
        MallocSparesAll(s, View(), addr, table[addr]);
      } else {
        AsForgotten(s, View(), addr, table[addr]);
      }
    }

    /** The same for the whole call. */
    function MallocFate(d: Driver, error: nat, c: nat, size: nat, chunkMb: Option<nat>, granularity: nat): Fate
      requires 0 < granularity
    {
      if error != 0 || Answer(answers, c) != 0 then Refused
      else
        var aligned := RoundUp(size, granularity);
        var reserved := Reservation(d, c + 1, aligned, granularity);
        if reserved.None? then Refused
        else ChunkFate(reserved.value, c + 1 + ReserveCalls(d, c + 1, aligned, granularity), aligned,
                       RoundUp(MemcreateChunkSize(chunkMb), granularity))
    }

    /** `my_malloc`, with the record that the Python callback keeps.  The driver's answers decide which of five things
        happens: two of the failures leave a record behind, one of an address that is free again and one of chunks
        that stay mapped. */
    method MyMalloc(size: nat, chunkMb: Option<nat>, granularity: nat) returns (r: Outcome)
      requires size < WORD && 0 < granularity < WORD
      requires Valid() && Recorded() && Sound(d)
      modifies this
      ensures Valid() && Recorded() && SparesAll(old(View()), View())
      ensures old(Inv(View())) ==>
                var fate := old(MallocFate(d, error, calls, size, chunkMb, granularity));
                Inv(View()) <==> fate.Refused? || fate.NoAccess? || fate.Served?
      ensures var fate := old(MallocFate(d, error, calls, size, chunkMb, granularity));
              && (fate.Refused? ==> r == Null && error != 0 && View() == old(View()))
              && (fate.Divides? ==>
                    && r == DivisionByZero && error == 0 && table == old(table) && fate.addr !in old(d).reserved
                    && d == WithRange(old(d), fate.addr, RoundUp(size, granularity)))
              && (fate.Unmapped? ==>
                    && r == Null && error != 0 && fate.addr in table
                    && Forgotten(old(View()), View(), fate.addr, table[fate.addr]))
              && (fate.NoAccess? ==>
                    && r == Null && error != 0 && fate.addr in table
                    && MallocStep(old(View()), View(), fate.addr, table[fate.addr]) && Right(View(), fate.addr))
              && (fate.Served? ==>
                    && r == Address(fate.addr) && error == 0 && fate.addr % granularity == 0 && fate.addr in table
                    && MallocStep(old(View()), View(), fate.addr, table[fate.addr]) && Right(View(), fate.addr)
                    && table[fate.addr].size == RoundUp(size, granularity)
                    && Tiling(table[fate.addr].sizes, RoundUp(size, granularity),
                              RoundUp(MemcreateChunkSize(chunkMb), granularity)))
      ensures old(error == 0 && Answer(answers, calls) != 0) ==> calls == old(calls) + 1
      ensures r.Address? ==> r.addr in table && calls == old(calls) + 2 * |table[r.addr].sizes| + 2
                             + old(ReserveCalls(d, calls + 1, RoundUp(size, granularity), granularity))
    {
      hide RoundUp, DriverOk, CanReserve, RangeFree, Tiling, NewChunks, MallocStep, Positive, Sum, Sound, Right;
      hide MemcreateChunkSize, Granted, Reservation, ReserveCalls, NumChunks, WithRange, WithoutRange, Fits;
      hide RecordedBelow, NewHandles, SparesAll, Forgotten, Inv;
      ghost var s0, d0 := View(), d;
      SoundDriverOk(d0);
      SparesItself(s0);
      var baseChunk := MemcreateChunkSize(chunkMb);
      RoundUpBound(size, granularity);
      RoundUpBound(baseChunk, granularity);
      var status: nat := Answer(answers, calls);
      calls := calls + 1;
      Check(status);
      if error != 0 {
        return Null;
      }
      var aligned := RoundUp(size, granularity);
      var addr;
      status, addr := ReserveRocmAddress(aligned, granularity, 0);
      Check(status);
      if error != 0 {
        return Null;
      }
      FreshSpot(s0, addr, aligned, granularity);
      RangeAlone(s0, addr, aligned);
      FitsAnyway(d0, addr, aligned, granularity);
      var chunk := RoundUp(baseChunk, granularity);
      if chunk == 0 {
        return DivisionByZero;
      }
      FillReserved(addr, aligned, chunk, s0);
      if error != 0 {
        return Null;
      }
      r := Address(addr);
    }

    /** Frees the address of an allocation that is asleep and reserves the same address again.  That works exactly
        when the driver answers with that address. */
    method ReservePlaceholder(p: nat, size: nat, ghost m: State)
      requires Valid() && error == 0 && d == m.d
      requires Sound(m.d) && Right(m, p) && m.table[p].asleep && m.table[p].size == size
      modifies `d, `error, `calls
      ensures Valid() && calls == old(calls) + 1
      ensures error == 0 <==> Answer(answers, old(calls)) == 0 && Answer(places, old(calls)) == p
      ensures d == if error == 0 then m.d else WithoutRange(m.d, p)
    {
      hide Sound, Right, DriverOk, CanReserve, RangeFree, Fits, WithRange, WithoutRange;
      RightRecord(m, p);
      var status := AddressFree(p, size);
      Check(status);
      if error == 0 {
        ghost var f := State(d, m.table - {p});
        AsleepFreed(m, p);
        FreeThenReserve(m.d, p, size);
        var addr;
        status, addr := ReserveRocmAddress(size, 0, p);
        Check(status);
        if error == 0 && addr != p {
          FreshSpot(f, addr, size, 0);
          ReserveThenFree(f.d, addr, size);
          status := AddressFree(addr, size);
          error := 1;
        }
      }
    }

    /** `python_unmap_and_release`, and the flag that is set whether or not it raises.  With an error
        code that was still set, the allocation goes to sleep as it should and an error is raised.  An allocation
        that is asleep already stays so, and an error is raised. */
    method Sleep(p: nat) returns (ok: bool)
      requires Valid() && Recorded() && Sound(d) && Right(View(), p)
      modifies this
      ensures Valid() && Recorded() && error == 0 && Spares(old(View()), View(), p)
      ensures Right(View(), p) <==> ok || old(table)[p].asleep || old(error) != 0
      ensures old(Inv(View())) ==> (Inv(View()) <==> Right(View(), p))
      ensures ok <==> old(error == 0 && !table[p].asleep && Answer(answers, calls) == 0 && Answer(places, calls) == p)
      ensures ok ==> calls == old(calls) + 1
      ensures !old(table)[p].asleep && (ok || old(error) != 0) ==> SleepStep(old(View()), View(), p)
      ensures !old(table)[p].asleep && !ok && old(error) == 0 ==> PlaceholderLost(old(View()), View(), p)
      ensures old(table)[p].asleep ==>
                table == old(table) && d == old(d).(live := old(d).live - Handles(table[p].handles, |table[p].handles|))
    {
      hide Sound, Right, Spares, SleepStep, PlaceholderLost, Handles, AllMatch, AllLive, MatchingKeys, Sum, Positive;
      hide Inv, Valid, WithoutRange, RecordedBelow;
      ghost var s0 := View();
      RightRecord(s0, p);
      var t := table[p];
      UnmapAndRelease(p, t.sizes, t.handles);
      table := table[p := t.(asleep := true)];
      ghost var m := View();
      AfterRelease(s0, m, p);
      ReleaseInv(s0, m, p);
      SameRecorded(s0.table, next, p);
      if error == 0 {
        ReservePlaceholder(p, t.size, m);
      }
      ok := error == 0;
      error := 0;
    }

    /** `python_create_and_map` into the placeholder.  It works exactly when no error code was left over and the driver
        grants every call.  With a code left over it fails, and the first handle is lost if the driver grants it.
        The record's handles are overwritten as far as new ones were created.  An allocation that is awake
        already cannot be woken. */
    method Wake(p: nat) returns (ok: bool)
      requires Valid() && Recorded() && Sound(d) && Right(View(), p)
      modifies this
      ensures Valid() && Recorded() && error == 0 && p in table && Spares(old(View()), View(), p)
      ensures ok <==> old(error == 0 && table[p].asleep && Granted(answers, calls, 2 * |table[p].sizes| + 1))
      ensures ok ==> WakeStep(old(View()), View(), p, table[p].handles)
      ensures !ok ==>
                var t, k := old(table)[p], StoredCount(answers, old(calls), |old(table)[p].sizes|, old(error));
                table == old(table)[p := t.(handles := Refilled(t.handles, Fresh(old(next), k)))]
      ensures old(error) == 0 && !old(table)[p].asleep ==> d == old(d)
      ensures old(error) == 0 && !Granted(answers, old(calls), 2 * |old(table)[p].sizes|) ==> d == old(d)
      ensures old(error) == 0 && !ok && old(table)[p].asleep && Granted(answers, old(calls), 2 * |old(table)[p].sizes|)
              ==> ChunksLost(old(View()), d, p, table[p].handles)
      ensures old(error) != 0 ==>
                && (d != old(d) <==> Answer(answers, old(calls)) == 0)
                && d == if Answer(answers, old(calls)) == 0 then old(d).(live := old(d).live + {old(next)}) else old(d)
      ensures Right(View(), p) <==>
              || ok || Answer(answers, old(calls)) != 0
              || (old(table)[p].asleep && (old(error) != 0 || !Granted(answers, old(calls), 2 * |old(table)[p].sizes|)))
      ensures old(Inv(View())) ==>
                (Inv(View()) <==>
                 || ok || Answer(answers, old(calls)) != 0
                 || (&& old(table)[p].asleep && old(error) == 0
                     && !Granted(answers, old(calls), 2 * |old(table)[p].sizes|)))
    {
      hide Inv, Sound, Right, Spares, DriverOk, TileKeys, Tiles, Covered, ChunksLost, Room, Granted, WakeStep, Sum;
      hide Positive, Handles, Fresh, Leading, RecordedBelow, NewHandles, WellSized, Refilled, StoredCount;
      ghost var s0, d0, next0, c := View(), d, next, calls;
      assert forall h :: h in d0.live ==> h < next0;
      SoundDriverOk(d0);
      BeforeWake(s0, p);
      var t := table[p];
      ghost var stored := StoredCount(answers, c, |t.sizes|, error);
      FreshAre(next0, stored);
      GrantedTwice(answers, c, |t.sizes|);
      StoredNone(answers, c, |t.sizes|, error);
      var handles, mappedAll := CreateAndMap(p, t.size, t.sizes);
      FreshNew(s0.table, next0, stored);
      if mappedAll {
        AsChunksLost(s0, d, p, handles);
      }
      ok := error == 0;
      error := 0;
      var t' := if ok then t.(handles := handles, asleep := false) else t.(handles := Refilled(t.handles, handles));
      table := table[p := t'];
      RefilledRecorded(s0.table, next0, stored, p, t');
      if ok {
        Woken(s0, View(), p, handles);
      } else if mappedAll {
        RefilledAll(t.handles, handles);
        ChunksAreLost(s0, View(), p, handles);
      } else {
        NotWoken(s0, View(), p, next0, stored);
        NotWokenInv(s0, View(), p, next0, stored);
      }
    }

    /** `my_free`: frees what the record says, under the size that the caller passes.  An allocation that a failed
        sleep or wake left behind is asleep, and its address is freed if nothing is mapped there. */
    method MyFree(p: nat, size: nat)
      requires Valid() && Recorded() && Sound(d) && (p in table && !table[p].asleep ==> Right(View(), p))
      modifies this
      ensures Valid() && Recorded() && Spares(old(View()), View(), p)
      ensures p !in old(table) ==> View() == old(View()) && error == old(error)
      ensures p in old(table) ==> table == old(table) - {p}
      ensures p in old(table) && old(table)[p].asleep ==>
                var freed := p in old(d).reserved && old(d).reserved[p] == size && RangeFree(old(d), p, size);
                && d == (if freed then WithoutRange(old(d), p) else old(d))
                && (if freed then error == old(error) else error != 0)
      ensures old(Right(View(), p)) && size == old(table)[p].size ==>
                FreeStep(old(View()), View(), p) && error == old(error)
      ensures old(Right(View(), p)) && !old(table)[p].asleep && size != old(table)[p].size ==>
                && error != 0
                && SleepStep(old(View()), State(d, old(table)[p := old(table)[p].(asleep := true)]), p)
    {
      hide RangeFree, SleepStep, PlaceholderLost, FreeStep, Handles, AllMatch, AllLive, MatchingKeys, Sum, Sound;
      hide Right, Spares, Positive, WithoutRange, RecordedBelow;
      ghost var s0 := View();
      NothingDone(s0, p);
      MaybeRight(s0, p);
      if p !in table {
        return;
      }
      var t := table[p];
      table := table - {p};
      RecordRemoved(s0.table, next, p);
      ghost var m := s0;
      if !t.asleep {
        UnmapAndRelease(p, t.sizes, t.handles);
        m := State(d, s0.table[p := t.(asleep := true)]);
        AfterRelease(s0, m, p);
      }
      if Right(s0, p) {
        AsleepFree(s0, m, p);
      } else {
        StrayFree(s0, p, size);
      }
      var status := AddressFree(p, size);
      Check(status);
    }

    /** The loop of `sleep`, which stops at the first failure.  After it no chunk is mapped and no handle is live,
        while every address is still reserved.  It fails if anything was asleep before.  When it fails, at
        allocation `at`, every other one is as it should be: those in `rest` as before, and the others asleep. */
    method SleepAll() returns (ok: bool, ghost at: nat, ghost rest: set<nat>)
      requires Valid() && Recorded() && Sound(d) && AllRight(View()) && error == 0
      modifies this
      ensures Valid() && Recorded() && Sound(d) && error == 0 && AsleepOutside(old(table), table, rest)
      ensures ok ==> rest == {} && AllRight(View()) && d.reserved == old(d).reserved
      ensures ok ==> forall p :: p in old(table) ==> !old(table)[p].asleep
      ensures ok && old(Inv(View())) ==> Inv(View()) && d.live == {} && d.mapped == map[]
      ensures !ok ==> at in old(table) && at !in rest && RightBut(View(), at)
    {
      hide Inv, Sound, Right, Spares, SleepStep, PlaceholderLost, RecordedBelow, AsleepOutside, Handles;
      hide AllRight, RightBut;
      ghost var table0, kept := table, Inv(View());
      AllAwake(table0);
      at := 0;
      var todo := table.Keys;
      rest := todo;
      while todo != {}
        invariant Valid() && Recorded() && Sound(d) && AllRight(View()) && error == 0 && rest == todo
        invariant d.reserved == old(d).reserved && (kept ==> Inv(View()))
        invariant todo <= table0.Keys && AsleepOutside(table0, table, todo)
        invariant forall p :: p in table0 && p !in todo ==> !table0[p].asleep
        decreases |todo|
      {
        var p :| p in todo;
        ghost var s0 := View();
        AllRightAt(s0, p, table0, todo);
        ok := Sleep(p);
        AfterSleep(s0, View(), p, table0, todo);
        todo := todo - {p};
        rest := todo;
        if !ok {
          at := p;
          return;
        }
      }
      AllAsleep(table0, View());
      ok := true;
    }

    /** The loop of `wake_up` over the allocations with the tags that are asked for.  It fails if one of them was
        awake.  When it fails, at allocation `at`, every other one is as it should be: those in `done` awake,
        and the others as before. */
    method WakeAll(chosen: set<nat>) returns (ok: bool, ghost at: nat, ghost done: set<nat>)
      requires Valid() && Recorded() && Sound(d) && AllRight(View()) && error == 0 && chosen <= table.Keys
      modifies this
      ensures Valid() && Recorded() && Sound(d) && error == 0
      ensures ok ==> done == chosen && AllRight(View()) && d.reserved == old(d).reserved
      ensures ok ==> AwakeIn(old(table), table, chosen) && forall p :: p in chosen ==> old(table)[p].asleep
      ensures ok && old(Inv(View())) ==> Inv(View())
      ensures !ok ==>
                && at in chosen && done <= chosen - {at} && at in table && RightBut(View(), at)
                && AwakeIn(old(table), table[at := old(table)[at]], done)
                && table[at] == old(table)[at].(handles := table[at].handles)
    {
      hide Inv, Sound, Right, Spares, WakeStep, ChunksLost, Granted, AwakeIn, RecordedBelow, Fresh, Refilled;
      hide AllRight, RightBut, StoredCount;
      ghost var table0, kept := table, Inv(View());
      AllAsBefore(table0);
      at, done := 0, {};
      var todo := chosen;
      while todo != {}
        invariant Valid() && Recorded() && Sound(d) && AllRight(View()) && error == 0 && done == chosen - todo
        invariant d.reserved == old(d).reserved && (kept ==> Inv(View()))
        invariant todo <= chosen && AwakeIn(table0, table, done) && table.Keys == table0.Keys
        invariant forall p :: p in done ==> table0[p].asleep
        decreases |todo|
      {
        var p :| p in todo;
        ghost var s0 := View();
        RightOne(s0, p);
        AwakeAt(table0, table, done, p);
        ok := Wake(p);
        if !ok {
          at := p;
          WakeStopped(s0, View(), p, table0, done);
          return;
        }
        WokenOne(s0, View(), p, table0, done);
        todo := todo - {p};
        done := done + {p};
      }
      ok := true;
    }
  }

  /** What `MallocFate` is, by the driver's answers to each call: the properties of the device, the reservation, its
      retry without an alignment, a create and a map for each chunk, and the access. */
  lemma {:induction false} MallocFateIs(a: Allocator, d: Driver, error: nat, c: nat, size: nat, chunkMb: Option<nat>,
                                        granularity: nat)
    requires 0 < granularity
    ensures var fate := a.MallocFate(d, error, c, size, chunkMb, granularity);
            var aligned, chunk := RoundUp(size, granularity), RoundUp(MemcreateChunkSize(chunkMb), granularity);
            var p, q := Answer(a.places, c + 1), Answer(a.places, c + 2);
            var first := && Answer(a.answers, c + 1) == 0 && 0 < aligned
                         && p % granularity == 0 && CanReserve(d, p, aligned);
            var retry := && Answer(a.answers, c + 2) == 0 && 0 < aligned
                         && q % granularity == 0 && CanReserve(d, q, aligned);
            var k := if first then c + 2 else c + 3;
            && (fate.Refused? <==> error != 0 || Answer(a.answers, c) != 0 || (!first && !retry))
            && (!fate.Refused? ==>
                  && fate.addr == (if first then p else q) && (fate.Divides? <==> chunk == 0)
                  && (chunk > 0 ==>
                        var n := NumChunks(aligned, chunk);
                        && (fate.Unmapped? <==> n == 0 || exists j :: k <= j < k + 2 * n && Answer(a.answers, j) != 0)
                        && (fate.NoAccess? ==> Answer(a.answers, k + 2 * n) != 0)
                        && (fate.Served? <==> n > 0 && forall j :: k <= j <= k + 2 * n ==> Answer(a.answers, j) == 0)))
  {
    hide RoundUp, MemcreateChunkSize, NumChunks, CanReserve;
  }

  lemma {:induction false} ChunksNotEmpty(d: Driver)
    requires DriverOk(d)
    ensures forall a :: a in d.mapped ==> d.mapped[a].size > 0
  {
  }

  lemma {:induction false} KeysKept(mapped: map<nat, Mapping>, base: nat, sizes: seq<nat>, handles: seq<nat>, i: nat)
    requires i <= |sizes| == |handles| && TileKeys(base, sizes, i) !! mapped.Keys
    ensures forall a :: a in mapped ==> (mapped + Tiles(base, sizes, handles, i))[a] == mapped[a]
  {
    TilesKeys(base, sizes, handles, i);
  }

  lemma {:induction false} MapNext(mapped: map<nat, Mapping>, base: nat, sizes: seq<nat>, handles: seq<nat>, i: nat)
    requires i < |sizes| == |handles|
    ensures (mapped + Tiles(base, sizes, handles, i))[base + Sum(sizes, i) := Mapping(sizes[i], handles[i])] ==
            mapped + Tiles(base, sizes, handles, i + 1)
    ensures TileKeys(base, sizes, i + 1) == TileKeys(base, sizes, i) + {base + Sum(sizes, i)}
  {
  }

  lemma {:induction false} UnmapNext(mapped: map<nat, Mapping>, base: nat, sizes: seq<nat>, handles: seq<nat>, n: nat,
                                     j: nat)
    requires j < n <= |sizes| == |handles| && Positive(sizes)
    ensures var m, a := (mapped + Tiles(base, sizes, handles, n)) - TileKeys(base, sizes, j), base + Sum(sizes, j);
            && a in m && m[a].size == sizes[j]
            && m - {a} == (mapped + Tiles(base, sizes, handles, n)) - TileKeys(base, sizes, j + 1)
  {
    TilesAt(base, sizes, handles, n, j);
    forall k | 0 <= k < j
      ensures Sum(sizes, k) < Sum(sizes, j)
    {
      SumIncreases(sizes, k, j);
    }
    assert TileKeys(base, sizes, j + 1) == TileKeys(base, sizes, j) + {base + Sum(sizes, j)};
  }

  lemma {:induction false} UnmappedAll(mapped: map<nat, Mapping>, base: nat, sizes: seq<nat>, handles: seq<nat>, n: nat)
    requires n <= |sizes| == |handles| && TileKeys(base, sizes, n) !! mapped.Keys
    ensures (mapped + Tiles(base, sizes, handles, n)) - TileKeys(base, sizes, n) == mapped
  {
    TilesKeys(base, sizes, handles, n);
  }

  // ---- What is there to unmap and to release ------------------------------------------------

  /** Something is mapped where chunk `k` belongs, with its size. */
  ghost predicate Matches(d: Driver, base: nat, sizes: seq<nat>, k: nat)
    requires k < |sizes|
  {
    base + Sum(sizes, k) in d.mapped && d.mapped[base + Sum(sizes, k)].size == sizes[k]
  }

  ghost function MatchingKeys(d: Driver, base: nat, sizes: seq<nat>, i: nat): set<nat>
    requires i <= |sizes|
  {
    set k | 0 <= k < i && Matches(d, base, sizes, k) :: base + Sum(sizes, k)
  }

  ghost predicate AllMatch(d: Driver, base: nat, sizes: seq<nat>, i: nat)
    requires i <= |sizes|
  {
    forall k :: 0 <= k < i ==> Matches(d, base, sizes, k)
  }

  /** The first `i` handles are live, and no two of them are the same. */
  ghost predicate AllLive(d: Driver, handles: seq<nat>, i: nat)
    requires i <= |handles|
  {
    && (forall k :: 0 <= k < i ==> handles[k] in d.live)
    && (forall j, k :: 0 <= j < k < i ==> handles[j] != handles[k])
  }

  lemma {:induction false} MatchingNone(d: Driver, base: nat, sizes: seq<nat>)
    ensures d.mapped - MatchingKeys(d, base, sizes, 0) == d.mapped && AllMatch(d, base, sizes, 0)
  {
  }

  lemma {:induction false} MatchingNext(d: Driver, base: nat, sizes: seq<nat>, i: nat)
    requires Positive(sizes) && i < |sizes|
    ensures var m, a := d.mapped - MatchingKeys(d, base, sizes, i), base + Sum(sizes, i);
            && (Matches(d, base, sizes, i) <==> a in m && m[a].size == sizes[i])
            && d.mapped - MatchingKeys(d, base, sizes, i + 1) == (if Matches(d, base, sizes, i) then m - {a} else m)
    ensures AllMatch(d, base, sizes, i + 1) <==> AllMatch(d, base, sizes, i) && Matches(d, base, sizes, i)
    ensures Sum(sizes, i + 1) == Sum(sizes, i) + sizes[i]
  {
    var a := base + Sum(sizes, i);
    assert a !in MatchingKeys(d, base, sizes, i) by {
      forall k | 0 <= k < i
        ensures Sum(sizes, k) < Sum(sizes, i)
      {
        SumIncreases(sizes, k, i);
      }
    }
    assert MatchingKeys(d, base, sizes, i + 1) ==
           MatchingKeys(d, base, sizes, i) + if Matches(d, base, sizes, i) then {a} else {};
  }

  lemma {:induction false} LiveNext(d: Driver, handles: seq<nat>, i: nat)
    requires i < |handles|
    ensures d.live - Handles(handles, i + 1) == (d.live - Handles(handles, i)) - {handles[i]}
    ensures AllLive(d, handles, i + 1) <==> AllLive(d, handles, i) && handles[i] in d.live - Handles(handles, i)
  {
    assert Handles(handles, i + 1) == Handles(handles, i) + {handles[i]};
  }

  /** An allocation that is awake can be unmapped and released without an error. */
  lemma {:induction false} ReleasableAt(s: State, p: nat)
    requires Sound(s.d) && Right(s, p) && !s.table[p].asleep
    ensures var t := s.table[p];
            && AllMatch(s.d, p, t.sizes, |t.sizes|) && AllLive(s.d, t.handles, |t.handles|)
            && s.d.mapped - MatchingKeys(s.d, p, t.sizes, |t.sizes|) == s.d.mapped - TileKeys(p, t.sizes, |t.sizes|)
  {
    hide Sum, Right, RangesApart, ChunksApart, Disjoint, RangeFree;
    RightRecord(s, p);
    var t := s.table[p];
    forall k | 0 <= k < |t.sizes|
      ensures Matches(s.d, p, t.sizes, k) && t.handles[k] in s.d.live
    {
      BackedAt(s.d, p, t, k);
    }
    assert MatchingKeys(s.d, p, t.sizes, |t.sizes|) == TileKeys(p, t.sizes, |t.sizes|);
  }

  /** Where an allocation is asleep there is nothing to unmap. */
  lemma {:induction false} AsleepUnmatched(s: State, p: nat)
    requires Right(s, p) && s.table[p].asleep
    ensures var t := s.table[p];
            && s.d.mapped - MatchingKeys(s.d, p, t.sizes, |t.sizes|) == s.d.mapped
            && !AllMatch(s.d, p, t.sizes, |t.sizes|)
  {
    hide Sum, Right, NotMapped;
    RightRecord(s, p);
    var t := s.table[p];
    SizesExist(t);
    forall k | 0 <= k < |t.sizes|
      ensures !Matches(s.d, p, t.sizes, k)
    {
      SumIncreases(t.sizes, k, |t.sizes|);
    }
    assert MatchingKeys(s.d, p, t.sizes, |t.sizes|) == {};
    assert !Matches(s.d, p, t.sizes, 0);
  }

  lemma {:induction false} SizesExist(t: Allocation)
    requires WellSized(t)
    ensures t.sizes != []
  {
  }

  // ---- Room for chunks ----------------------------------------------------------------------

  lemma {:induction false} SameRanges(d: Driver, d': Driver, base: nat, size: nat)
    requires d'.reserved == d.reserved && d'.mapped == d.mapped
    ensures (DriverOk(d) ==> DriverOk(d')) && (Room(d, base, size) ==> Room(d', base, size))
  {
  }

  /** With room for all chunks there is room for the next one. */
  lemma {:induction false} ChunkFits(d: Driver, d': Driver, base: nat, sizes: seq<nat>, handles: seq<nat>, i: nat)
    requires i < |sizes| == |handles| && Positive(sizes) && Room(d, base, Sum(sizes, |sizes|))
    requires d' == d.(mapped := d.mapped + Tiles(base, sizes, handles, i))
    ensures CanMap(d', base + Sum(sizes, i), sizes[i])
  {
    SumIncreases(sizes, i, |sizes|);
    TilesKeys(base, sizes, handles, i);
    forall a | a in d'.mapped
      ensures Disjoint(base + Sum(sizes, i), sizes[i], a, d'.mapped[a].size)
    {
      if a in Tiles(base, sizes, handles, i) {
        var k :| 0 <= k < i && a == base + Sum(sizes, k);
        TilesAt(base, sizes, handles, i, k);
        SumIncreases(sizes, k, i);
      }
    }
    var r :| r in d.reserved && r <= base && base + Sum(sizes, |sizes|) <= r + d.reserved[r];
    assert r in d'.reserved;
  }

  /** The first chunk of an allocation that is awake is in the way. */
  lemma {:induction false} AwakeTaken(s: State, p: nat)
    requires Right(s, p) && !s.table[p].asleep
    ensures !(TileKeys(p, s.table[p].sizes, |s.table[p].sizes|) !! s.d.mapped.Keys)
  {
    hide Right, RangeFree, NotMapped;
    RightRecord(s, p);
    var t := s.table[p];
    SizesExist(t);
    BackedAt(s.d, p, t, 0);
    assert p + Sum(t.sizes, 0) in TileKeys(p, t.sizes, |t.sizes|);
  }

  lemma {:induction false} ByteCovered(d: Driver, p: nat, t: Allocation, byte: nat)
    requires WellSized(t) && p <= byte < p + t.size
    ensures ByteMapped(WithChunks(d, p, t.sizes, t.handles), byte)
  {
    hide Sum, Tiles, Handles;
    var d' := WithChunks(d, p, t.sizes, t.handles);
    var k := TilesCover(p, t.sizes, |t.sizes|, byte);
    TilesAt(p, t.sizes, t.handles, |t.sizes|, k);
    hide WellSized, Positive, DistinctHandles;
    var a := p + Sum(t.sizes, k);
    assert d'.mapped[a].size == t.sizes[k];
    assert Holds(d', a, byte);
  }

  lemma {:induction false} ChunksCovered(d: Driver, p: nat, t: Allocation)
    requires WellSized(t)
    ensures Covered(WithChunks(d, p, t.sizes, t.handles), p, t.size)
  {
    assert |t.handles| == |t.sizes|;
    hide WellSized, WithChunks, ByteMapped;
    forall byte | p <= byte < p + t.size
      ensures ByteMapped(WithChunks(d, p, t.sizes, t.handles), byte)
    {
      ByteCovered(d, p, t, byte);
    }
  }

  // ---- States after an operation ------------------------------------------------------------

  /** The driver stays sound, and every allocation that was as it should be still is. */
  ghost predicate SparesAll(s: State, s': State) {
    Sound(s'.d) && forall q :: Right(s, q) ==> Right(s', q)
  }

  /** An allocation at an address that was not reserved failed and was undone, but its record is in the table. */
  ghost predicate Forgotten(s: State, s': State, p: nat, t: Allocation) {
    CanReserve(s.d, p, t.size) && t.size > 0 && s'.d == s.d && s'.table == s.table[p := t]
  }

  /** The chunks of `addr` are mapped under new handles, and the table has them. */
  ghost predicate NewChunks(d: Driver, d': Driver, table: map<nat, Allocation>, table': map<nat, Allocation>,
                            addr: nat, aligned: nat, sizes: seq<nat>)
  {
    && addr in table' && table'[addr].size == aligned && table'[addr].sizes == sizes != []
    && WellSized(table'[addr]) && !table'[addr].asleep
    && Handles(table'[addr].handles, |sizes|) !! d.live
    && d' == WithChunks(d, addr, sizes, table'[addr].handles)
    && table' == table[addr := table'[addr]]
  }

  /** Without chunks the range is not mapped. */
  lemma {:induction false} NoChunks(d: Driver, d': Driver, addr: nat, size: nat)
    requires size > 0 && RangeFree(d, addr, size)
    requires d' == d || d' == WithChunks(d, addr, [], [])
    ensures d' == d && !Covered(d', addr, size)
  {
    assert d'.mapped == d.mapped && d'.live == d.live;
    assert !ByteMapped(d, addr);
  }

  /** Once its chunks are mapped, access can be set on the range and it cannot be freed. */
  lemma {:induction false} AsNewChunks(d: Driver, d': Driver, table: map<nat, Allocation>, table': map<nat, Allocation>,
                                       addr: nat, t: Allocation)
    requires t.size > 0 && Positive(t.sizes) && |t.handles| == |t.sizes| && Sum(t.sizes, |t.sizes|) == t.size
    requires t.sizes != [] && DistinctHandles(t.handles) && !t.asleep
    requires forall k :: 0 <= k < |t.handles| ==> t.handles[k] !in d.live
    requires d' == WithChunks(d, addr, t.sizes, t.handles) && table' == table[addr := t]
    ensures NewChunks(d, d', table, table', addr, t.size, t.sizes)
    ensures Covered(d', addr, t.size) && !RangeFree(d', addr, t.size)
  {
    ChunksCovered(d, addr, t);
    hide Covered;
    TilesAt(addr, t.sizes, t.handles, |t.sizes|, 0);
    assert Sum(t.sizes, 0) == 0;
  }

  lemma {:induction false} SparesItself(s: State)
    requires Sound(s.d)
    ensures SparesAll(s, s)
  {
  }

  /** What an address that was free to reserve is like. */
  lemma {:induction false} FreshSpot(s: State, addr: nat, size: nat, alignment: nat)
    requires Sound(s.d) && Fits(s.d, addr, size, alignment)
    ensures size > 0 && CanReserve(s.d, addr, size) && (alignment != 0 ==> addr % alignment == 0)
    ensures addr !in s.d.reserved && DriverOk(WithRange(s.d, addr, size))
    ensures RangeFree(WithRange(s.d, addr, size), addr, size)
  {
    hide Sound, DriverOk, CanReserve, WithRange, RangeFree;
    RangeAdded(s.d, addr, size);
    SoundDriverOk(WithRange(s.d, addr, size));
  }

  /** A reservation without a record spares every allocation, but the table no longer has everything. */
  lemma {:induction false} RangeAlone(s: State, addr: nat, size: nat)
    requires Sound(s.d) && CanReserve(s.d, addr, size) && size > 0
    ensures SparesAll(s, State(WithRange(s.d, addr, size), s.table))
    ensures Inv(s) ==> !Inv(State(WithRange(s.d, addr, size), s.table))
  {
    hide Sound, CanReserve, Right, Apart, Mapped, Live, WellSized;
    RangeAdded(s.d, addr, size);
    forall q | Right(s, q)
      ensures Right(State(WithRange(s.d, addr, size), s.table), q)
    {
      RangeSpares(s, addr, size, q);
    }
  }

  /** So does a record without a reservation. */
  lemma {:induction false} AsForgotten(s: State, s': State, p: nat, t: Allocation)
    requires Sound(s.d) && CanReserve(s.d, p, t.size) && t.size > 0
    requires s'.d == s.d && s'.table == s.table[p := t]
    ensures Forgotten(s, s', p, t) && SparesAll(s, s') && !Inv(s')
  {
    hide Sound, CanReserve, Right, Apart, Mapped, Live, WellSized;
    RangeAdded(s.d, p, t.size);
    NotRight(s, p);
    RecordSpares(s, s', p);
  }

  lemma {:induction false} MallocSparesAll(s: State, s': State, p: nat, t: Allocation)
    requires Sound(s.d) && MallocStep(s, s', p, t) && NewHandles(s.table, t.handles)
    ensures SparesAll(s, s') && Right(s', p) && (Inv(s) ==> Inv(s'))
  {
    hide Sound, MallocStep, NewHandles, Right, Inv;
    MallocSpares(s, s', p, t);
    if Inv(s) {
      MallocKeeps(s, s', p, t);
    }
  }

  lemma {:induction false} TilingSums(sizes: seq<nat>, aligned: nat, chunk: nat)
    requires sizes == [] || Tiling(sizes, aligned, chunk)
    ensures Positive(sizes) && (sizes == [] || Sum(sizes, |sizes|) == aligned)
  {
  }

  lemma {:induction false} AsMallocStep(s: State, s': State, addr: nat, aligned: nat, sizes: seq<nat>)
    requires CanReserve(s.d, addr, aligned)
    requires NewChunks(WithRange(s.d, addr, aligned), s'.d, s.table, s'.table, addr, aligned, sizes)
    ensures MallocStep(s, s', addr, s'.table[addr])
    ensures s'.table[addr].size == aligned && s'.table[addr].sizes == sizes != []
  {
  }

  /** The chunks are gone, and the address was not reserved again. */
  ghost predicate PlaceholderLost(s: State, s': State, p: nat) {
    && p in s.table && !s.table[p].asleep && WellSized(s.table[p])
    && (var d := WithoutChunks(s.d, p, s.table[p].sizes, s.table[p].handles);
        s'.d == WithoutRange(d, p))
    && s'.table == s.table[p := s.table[p].(asleep := true)]
  }

  /** The chunks are mapped under handles that no record has. */
  ghost predicate ChunksLost(s: State, d: Driver, p: nat, hs: seq<nat>) {
    && p in s.table && WellSized(s.table[p].(handles := hs, asleep := false)) && Handles(hs, |hs|) !! s.d.live
    && d == WithChunks(s.d, p, s.table[p].sizes, hs)
  }

  /** Only the handles that the record of `p` has may differ. */
  ghost predicate Overwritten(table: map<nat, Allocation>, table': map<nat, Allocation>, p: nat) {
    && p in table && p in table' && table' == table[p := table'[p]]
    && table'[p] == table[p].(handles := table'[p].handles) && |table'[p].handles| == |table[p].handles|
  }

  /** An allocation is as before, except for handles that it does not use. */
  lemma {:induction false} OverwrittenAt(s: State, table': map<nat, Allocation>, p: nat, q: nat)
    requires Overwritten(s.table, table', p) && s.table[p].asleep && q in s.table
    ensures q in table' && table'[q].size == s.table[q].size && HandlesOf(table'[q]) == HandlesOf(s.table[q])
    ensures KeysOf(q, table'[q]) == KeysOf(q, s.table[q]) && (WellSized(s.table[q]) ==> WellSized(table'[q]))
    ensures Backed(s.d, q, s.table[q]) ==> Backed(s.d, q, table'[q])
  {
    hide Sum, Handles, TileKeys, ChunkAt, Positive, DistinctHandles;
  }

  /** The handles in the record of an allocation that is asleep do not matter. */
  lemma {:induction false} OverwrittenKeeps(s: State, table': map<nat, Allocation>, p: nat)
    requires Inv(s) && Overwritten(s.table, table', p) && s.table[p].asleep
    ensures Inv(State(s.d, table'))
  {
    hide HandlesOf, KeysOf, Backed, WellSized, Disjoint;
    var s' := State(s.d, table');
    assert table'.Keys == s.table.Keys;
    forall q | q in s.table
      ensures table'[q].size == s.table[q].size && HandlesOf(table'[q]) == HandlesOf(s.table[q])
      ensures KeysOf(q, table'[q]) == KeysOf(q, s.table[q]) && WellSized(table'[q]) && Backed(s.d, q, table'[q])
    {
      OverwrittenAt(s, table', p, q);
    }
    forall a | a in s'.d.mapped
      ensures Owned(s', a)
    {
      assert Owned(s, a);
      var q :| q in s.table && a in KeysOf(q, s.table[q]);
      assert q in s'.table;
    }
    forall h | h in s'.d.live
      ensures exists q :: q in s'.table && h in HandlesOf(s'.table[q])
    {
      var q :| q in s.table && h in HandlesOf(s.table[q]);
      assert q in s'.table;
    }
  }

  /** Where `unmap_and_release` leads, by whether the allocation was asleep. */
  lemma {:induction false} AfterRelease(s: State, m: State, p: nat)
    requires Sound(s.d) && Right(s, p) && |s.table[p].handles| == |s.table[p].sizes|
    requires var t := s.table[p];
             && m.d == Driver(s.d.reserved, s.d.live - Handles(t.handles, |t.handles|),
                              s.d.mapped - MatchingKeys(s.d, p, t.sizes, |t.sizes|))
             && m.table == s.table[p := t.(asleep := true)]
    ensures Sound(m.d) && Right(m, p) && Spares(s, m, p)
    ensures var t := s.table[p];
            if t.asleep then
              && !AllMatch(s.d, p, t.sizes, |t.sizes|) && m.table == s.table
              && m.d == s.d.(live := s.d.live - Handles(t.handles, |t.handles|))
            else
              && AllMatch(s.d, p, t.sizes, |t.sizes|) && AllLive(s.d, t.handles, |t.handles|) && SleepStep(s, m, p)
              && PlaceholderLost(s, m.(d := WithoutRange(m.d, p)), p)
              && Spares(s, m.(d := WithoutRange(m.d, p)), p) && !Right(m.(d := WithoutRange(m.d, p)), p)
  {
    hide Sound, Right, Spares, Sum, Handles, AllMatch, AllLive, MatchingKeys, SleepStep, PlaceholderLost, WellSized;
    hide RangeFree, NotMapped, Backed;
    RightRecord(s, p);
    if s.table[p].asleep {
      AsleepUnmatched(s, p);
      AsleepReleased(s, m, p);
    } else {
      ReleasableAt(s, p);
      AsSleepStep(s, m, p);
      SleepSpares(s, m, p);
      PlaceholderGone(s, m, p);
    }
  }

  /** Releasing the handles of an allocation that is asleep changes nothing that is mapped. */
  lemma {:induction false} AsleepReleased(s: State, m: State, p: nat)
    requires Sound(s.d) && Right(s, p) && s.table[p].asleep
    requires m.d == s.d.(live := s.d.live - Handles(s.table[p].handles, |s.table[p].handles|))
    requires m.table == s.table[p := s.table[p].(asleep := true)]
    ensures Sound(m.d) && Right(m, p) && Spares(s, m, p) && m.table == s.table
  {
    hide Sound, Right, Spares, Handles, WellSized, RangeFree, NotMapped, Backed, Sum;
    RightRecord(s, p);
    assert m.table == s.table;
    FewerLive(s.d, s.table[p].handles);
    RecordSpares(s, m, p);
    RightSame(s, m, p);
  }

  /** Going to sleep, and giving up the address after that. */
  lemma {:induction false} AsSleepStep(s: State, m: State, p: nat)
    requires p in s.table && !s.table[p].asleep && WellSized(s.table[p])
    requires var t := s.table[p];
             m.d == Driver(s.d.reserved, s.d.live - Handles(t.handles, |t.handles|),
                           s.d.mapped - TileKeys(p, t.sizes, |t.sizes|))
    requires m.table == s.table[p := s.table[p].(asleep := true)]
    ensures SleepStep(s, m, p) && PlaceholderLost(s, m.(d := WithoutRange(m.d, p)), p)
  {
  }

  lemma {:induction false} PlaceholderGone(s: State, m: State, p: nat)
    requires Sound(m.d) && Right(m, p) && m.table[p].asleep && Spares(s, m, p)
    ensures Spares(s, m.(d := WithoutRange(m.d, p)), p) && !Right(m.(d := WithoutRange(m.d, p)), p)
  {
    hide Sound, Spares, RangeFree, NotMapped, Backed, WellSized, Right;
    RightRecord(m, p);
    var g := m.(d := WithoutRange(m.d, p));
    GiveUpSpares(m, g, p);
    SparesBoth(s, m, g, p);
    NotRight(g, p);
  }

  /** When the table had everything, it still does, unless the address is lost. */
  lemma {:induction false} ReleaseInv(s: State, m: State, p: nat)
    requires Right(s, p) && p in m.table
    requires if s.table[p].asleep then
               && m.table == s.table
               && m.d == s.d.(live := s.d.live - Handles(s.table[p].handles, |s.table[p].handles|))
             else SleepStep(s, m, p)
    ensures Inv(s) ==> Inv(m)
    ensures !Inv(m.(d := WithoutRange(m.d, p)))
  {
    hide Inv, SleepStep, Right;
    RightRecord(s, p);
    if Inv(s) {
      if s.table[p].asleep {
        StaleHandles(s, p);
        assert m == s;
      } else {
        SleepKeeps(s, m, p);
      }
    }
    NotReserved(m.(d := WithoutRange(m.d, p)), p);
  }

  /** The handles of an allocation that is asleep are not live. */
  lemma {:induction false} StaleHandles(s: State, p: nat)
    requires Inv(s) && p in s.table && NotMapped(s.d, s.table[p].handles)
    ensures s.d.live - Handles(s.table[p].handles, |s.table[p].handles|) == s.d.live
  {
    hide Inv, Sum, TileKeys;
    forall h | h in s.d.live
      ensures h !in s.table[p].handles
    {
      var q, k := LiveOwner(s, h);
      InvAt(s, q);
      BackedAt(s.d, q, s.table[q], k);
    }
  }

  lemma {:induction false} LiveOwner(s: State, h: nat) returns (q: nat, k: nat)
    requires Inv(s) && h in s.d.live
    ensures q in s.table && !s.table[q].asleep && k < |s.table[q].handles| == |s.table[q].sizes|
    ensures s.table[q].handles[k] == h
  {
    hide Apart, Mapped, Sum;
    q :| q in s.table && h in HandlesOf(s.table[q]);
    k :| 0 <= k < |s.table[q].handles| && s.table[q].handles[k] == h;
    assert WellSized(s.table[q]);
  }

  lemma {:induction false} NotReserved(s: State, p: nat)
    requires p in s.table && p !in s.d.reserved
    ensures !Inv(s)
  {
    hide Apart, Mapped, Live;
  }

  /** Giving up the address of an allocation that is asleep, or just went to sleep, frees it. */
  lemma {:induction false} AsleepFree(s: State, m: State, p: nat)
    requires Sound(m.d) && Right(s, p) && Right(m, p) && Spares(s, m, p)
    requires if s.table[p].asleep then m == s else SleepStep(s, m, p)
    ensures p in m.d.reserved && m.d.reserved[p] == s.table[p].size && RangeFree(m.d, p, s.table[p].size)
    ensures FreeStep(s, State(WithoutRange(m.d, p), s.table - {p}), p)
    ensures Spares(s, State(WithoutRange(m.d, p), s.table - {p}), p)
    ensures Spares(s, State(m.d, s.table - {p}), p)
  {
    hide Sound, Right, Spares, RangeFree, WithoutRange, WithoutChunks, WellSized;
    RightRecord(s, p);
    RightRecord(m, p);
    var g := State(WithoutRange(m.d, p), s.table - {p});
    GiveUpSpares(m, g, p);
    SparesBoth(s, m, g, p);
    var r := State(m.d, s.table - {p});
    RecordSpares(m, r, p);
    SparesBoth(s, m, r, p);
  }

  /** So does giving up the address of one that is not as it should be, if that can be done. */
  lemma {:induction false} StrayFree(s: State, p: nat, size: nat)
    requires Sound(s.d)
    ensures Spares(s, State(s.d, s.table - {p}), p)
    ensures p in s.d.reserved && s.d.reserved[p] == size && RangeFree(s.d, p, size) ==>
              Spares(s, State(WithoutRange(s.d, p), s.table - {p}), p)
  {
    hide Sound, Right, Spares, RangeFree, WithoutRange;
    RecordSpares(s, State(s.d, s.table - {p}), p);
    if p in s.d.reserved && s.d.reserved[p] == size && RangeFree(s.d, p, size) {
      GiveUpSpares(s, State(WithoutRange(s.d, p), s.table - {p}), p);
    }
  }

  lemma {:induction false} MaybeRight(s: State, p: nat)
    ensures Right(s, p) ==>
              && p in s.table && |s.table[p].handles| == |s.table[p].sizes| && Positive(s.table[p].sizes)
              && p in s.d.reserved && s.d.reserved[p] == s.table[p].size
              && (s.table[p].asleep ==> RangeFree(s.d, p, s.table[p].size))
  {
    hide Right;
    if Right(s, p) {
      RightRecord(s, p);
    }
  }

  lemma {:induction false} NothingDone(s: State, p: nat)
    requires Sound(s.d)
    ensures Spares(s, s, p)
  {
    hide Sound, Right;
  }

  /** The address of an allocation that is asleep can be reserved again after it was freed. */
  lemma {:induction false} AsleepFreed(m: State, p: nat)
    requires Sound(m.d) && Right(m, p) && m.table[p].asleep
    ensures Sound(WithoutRange(m.d, p)) && DriverOk(WithoutRange(m.d, p)) && m.table[p].size > 0
    ensures Fits(WithoutRange(m.d, p), p, m.table[p].size, 0)
  {
    hide Right, DriverOk, ChunksApart, HandlesApart, WellSized, Backed, RangeFree, NotMapped;
    RightRecord(m, p);
    RangeRemoved(m.d, p);
    SoundDriverOk(WithoutRange(m.d, p));
  }

  lemma {:induction false} AsChunksLost(s: State, d: Driver, p: nat, hs: seq<nat>)
    requires p in s.table && WellSized(s.table[p]) && |hs| == |s.table[p].sizes| && DistinctHandles(hs)
    requires forall k :: 0 <= k < |hs| ==> hs[k] !in s.d.live
    requires d == Driver(s.d.reserved, s.d.live + Handles(hs, |hs|), s.d.mapped + Tiles(p, s.table[p].sizes, hs, |hs|))
    ensures ChunksLost(s, d, p, hs) && Covered(d, p, s.table[p].size)
  {
    ChunksCovered(s.d, p, s.table[p].(handles := hs, asleep := false));
    hide Covered;
  }

  /** What waking an allocation meets: room if it is asleep, and its own chunks if it is awake. */
  lemma {:induction false} BeforeWake(s: State, p: nat)
    requires Right(s, p)
    ensures p in s.table
    ensures var t := s.table[p];
            && WellSized(t) && t.sizes != [] && Positive(t.sizes) && |t.handles| == |t.sizes|
            && (t.asleep ==> Room(s.d, p, Sum(t.sizes, |t.sizes|)))
            && (!t.asleep ==> !(TileKeys(p, t.sizes, |t.sizes|) !! s.d.mapped.Keys))
  {
    hide Right, Sum, Room, TileKeys, RangeFree, NotMapped, Backed;
    RightRecord(s, p);
    SizesExist(s.table[p]);
    if s.table[p].asleep {
      ReservedRoom(s.d, p, s.table[p].size);
    } else {
      AwakeTaken(s, p);
    }
  }

  lemma {:induction false} Woken(s: State, s': State, p: nat, hs: seq<nat>)
    requires Sound(s.d) && Right(s, p) && NewHandles(s.table, hs)
    requires ChunksLost(s, s'.d, p, hs) && s.table[p].asleep
    requires s'.table == s.table[p := s.table[p].(handles := hs, asleep := false)]
    ensures WakeStep(s, s', p, hs) && Spares(s, s', p) && Right(s', p) && (Inv(s) ==> Inv(s'))
  {
    hide Sound, Right, NewHandles, Spares, Inv, WithChunks, Handles;
    RightRecord(s, p);
    WakeSpares(s, s', p, hs);
    if Inv(s) {
      WakeKeeps(s, s', p, hs);
    }
  }

  /** The chunks are mapped and the record says that they are not. */
  lemma {:induction false} ChunksAreLost(s: State, s': State, p: nat, hs: seq<nat>)
    requires Sound(s.d) && Right(s, p) && NewHandles(s.table, hs)
    requires ChunksLost(s, s'.d, p, hs) && s.table[p].asleep
    requires s'.table == s.table[p := s.table[p].(handles := hs)]
    ensures Spares(s, s', p) && !Right(s', p) && !Inv(s')
  {
    hide Sound, Right, NewHandles, Spares, Inv, WithChunks, Handles, WellSized, RangeFree;
    RightRecord(s, p);
    SameCount(s.table[p].(handles := hs, asleep := false));
    WakeSpares(s, s', p, hs);
    RangeTaken(s.d, p, s.table[p].(handles := hs, asleep := false));
    if Right(s', p) {
      RightRecord(s', p);
    }
    if Inv(s') {
      AsleepRangeFree(s', p);
    }
  }

  lemma {:induction false} RangeTaken(d: Driver, p: nat, t: Allocation)
    requires WellSized(t)
    ensures |t.handles| == |t.sizes| && !RangeFree(WithChunks(d, p, t.sizes, t.handles), p, t.size)
  {
    SizesExist(t);
    TilesAt(p, t.sizes, t.handles, |t.sizes|, 0);
    assert Sum(t.sizes, 0) == 0;
  }

  /** Nothing was mapped: new handles in the record are wrong exactly for an allocation that is awake. */
  lemma {:induction false} NotWoken(s: State, s': State, p: nat, next: nat, k: nat)
    requires Sound(s.d) && Right(s, p) && k <= |s.table[p].handles| && forall h :: h in s.d.live ==> h < next
    requires s'.d == s.d || s'.d == s.d.(live := s.d.live + {next})
    requires s'.table == s.table[p := s.table[p].(handles := Refilled(s.table[p].handles, Fresh(next, k)))]
    ensures Spares(s, s', p)
    ensures Right(s', p) <==> s.table[p].asleep || k == 0
  {
    hide Sound, Right, Spares, Refilled, Fresh;
    MoreLive(s.d, next);
    RecordSpares(s, s', p);
    RightRecord(s, p);
    if s.table[p].asleep {
      RefilledAsleep(s, s', p, next, k);
    } else if k == 0 {
      RefilledNone(s.table[p].handles, next);
      RightSame(s, s', p);
    } else {
      RefilledAwake(s, s', p, next, k);
    }
  }

  lemma {:induction false} RefilledNone(handles: seq<nat>, next: nat)
    ensures Refilled(handles, Fresh(next, 0)) == handles
  {
  }

  lemma {:induction false} RefilledAsleep(s: State, s': State, p: nat, next: nat, k: nat)
    requires Sound(s.d) && Right(s, p) && s.table[p].asleep && k <= |s.table[p].handles|
    requires forall h :: h in s.d.live ==> h < next
    requires s'.d.reserved == s.d.reserved && s'.d.mapped == s.d.mapped
    requires p in s'.table && s'.table[p] == s.table[p].(handles := Refilled(s.table[p].handles, Fresh(next, k)))
    ensures Right(s', p)
  {
    hide RangesApart, ChunksApart, Disjoint, Sum;
    var t, t' := s.table[p], s'.table[p];
    forall a | a in s'.d.mapped
      ensures s'.d.mapped[a].handle !in t'.handles
    {
      assert s.d.mapped[a].handle < next;
      assert forall h :: h in t'.handles ==> h in t.handles || h in Fresh(next, k);
    }
  }

  /** A chunk is mapped under the handle that was overwritten. */
  lemma {:induction false} RefilledAwake(s: State, s': State, p: nat, next: nat, k: nat)
    requires Sound(s.d) && Right(s, p) && !s.table[p].asleep && 0 < k <= |s.table[p].handles|
    requires forall h :: h in s.d.live ==> h < next
    requires s'.d.mapped == s.d.mapped
    requires p in s'.table && s'.table[p] == s.table[p].(handles := Refilled(s.table[p].handles, Fresh(next, k)))
    ensures !Backed(s'.d, p, s'.table[p]) && !Right(s', p)
  {
    hide RangesApart, ChunksApart, Disjoint, RangeFree, NotMapped, WellSized;
    var t, t' := s.table[p], s'.table[p];
    BackedAt(s.d, p, t, 0);
    assert t.handles[0] < next == t'.handles[0];
    if Backed(s'.d, p, t') {
      BackedAt(s'.d, p, t', 0);
    }
  }

  /** When the table had everything, it still does if the record is as before, or if it is asleep and no handle is
      lost. */
  lemma {:induction false} NotWokenInv(s: State, s': State, p: nat, next: nat, k: nat)
    requires Sound(s.d) && Right(s, p) && k <= |s.table[p].handles| && forall h :: h in s.d.live ==> h < next
    requires s'.d == s.d || s'.d == s.d.(live := s.d.live + {next})
    requires s'.table == s.table[p := s.table[p].(handles := Refilled(s.table[p].handles, Fresh(next, k)))]
    requires k == 0 ==> s'.d == s.d
    ensures Inv(s) ==> (Inv(s') <==> k == 0 || (s.table[p].asleep && s'.d == s.d))
  {
    hide Inv, Sound, Right, Refilled, Fresh;
    RightRecord(s, p);
    if Inv(s) {
      if k == 0 {
        RefilledNone(s.table[p].handles, next);
        assert s'.table == s.table;
      } else if !s.table[p].asleep {
        RefilledAwake(s, s', p, next, k);
        if Inv(s') {
          InvAt(s', p);
        }
      } else if s'.d == s.d {
        OverwrittenKeeps(s, s'.table, p);
      } else {
        HandleLost(s, s', p, next);
      }
    }
  }

  lemma {:induction false} HandleLost(s: State, s': State, p: nat, h: nat)
    requires Inv(s) && h !in s.d.live && s'.d == s.d.(live := s.d.live + {h})
    requires Overwritten(s.table, s'.table, p) && s.table[p].asleep
    ensures !Inv(s')
  {
    hide Reserved, Apart, Mapped, Handles;
    forall q | q in s'.table
      ensures h !in HandlesOf(s'.table[q])
    {
      assert HandlesOf(s'.table[q]) == HandlesOf(s.table[q]);
    }
  }

  /** `table'` is the table with the allocations outside `awake` asleep. */
  ghost predicate AsleepOutside(table: map<nat, Allocation>, table': map<nat, Allocation>, awake: set<nat>) {
    && table'.Keys == table.Keys
    && forall p :: p in table ==> table'[p] == if p in awake then table[p] else table[p].(asleep := true)
  }

  /** `table'` is the table with the allocations in `done` awake, under some handles. */
  ghost predicate AwakeIn(table: map<nat, Allocation>, table': map<nat, Allocation>, done: set<nat>) {
    && table'.Keys == table.Keys
    && forall p :: p in table ==>
         table'[p] == if p in done then table[p].(handles := table'[p].handles, asleep := false) else table[p]
  }

  /** Every allocation is as it should be. */
  ghost predicate AllRight(s: State) {
    forall q :: q in s.table ==> Right(s, q)
  }

  ghost predicate RightBut(s: State, p: nat) {
    forall q :: q in s.table && q != p ==> Right(s, q)
  }

  lemma {:induction false} RightOne(s: State, p: nat)
    requires AllRight(s) && p in s.table
    ensures Right(s, p)
  {
    hide Right;
  }

  lemma {:induction false} AllAwake(table: map<nat, Allocation>)
    ensures AsleepOutside(table, table, table.Keys)
  {
  }

  lemma {:induction false} AllRightAt(s: State, p: nat, table: map<nat, Allocation>, todo: set<nat>)
    requires AllRight(s) && AsleepOutside(table, s.table, todo) && p in todo && p in table
    ensures Right(s, p) && p in s.table && s.table[p] == table[p]
  {
    hide Right;
  }

  lemma {:induction false} RightAfter(s: State, s': State, p: nat)
    requires AllRight(s) && Spares(s, s', p) && s'.table.Keys == s.table.Keys
    ensures Sound(s'.d) && RightBut(s', p) && (Right(s', p) ==> AllRight(s'))
  {
    hide Right, Sound;
  }

  /** One round of the loop of `sleep`. */
  lemma {:induction false} AfterSleep(s: State, s': State, p: nat, table: map<nat, Allocation>, todo: set<nat>)
    requires AllRight(s) && Spares(s, s', p) && p in todo && p in table && AsleepOutside(table, s.table, todo)
    requires || SleepStep(s, s', p) || PlaceholderLost(s, s', p)
             || (p in s.table && s.table[p].asleep && s'.table == s.table)
    ensures Sound(s'.d) && AsleepOutside(table, s'.table, todo - {p}) && RightBut(s', p)
    ensures Right(s', p) ==> AllRight(s')
    ensures SleepStep(s, s', p) ==> s'.d.reserved == s.d.reserved && !table[p].asleep
  {
    hide Right, Spares, AllRight, RightBut, WellSized, TileKeys, Handles;
    RightAfter(s, s', p);
  }

  lemma {:induction false} AllAsleep(table: map<nat, Allocation>, s: State)
    requires AsleepOutside(table, s.table, {})
    ensures Inv(s) ==> s.d.live == {} && s.d.mapped == map[]
  {
    hide Inv;
    if Inv(s) {
      NothingAwake(s);
    }
  }

  lemma {:induction false} AllAsBefore(table: map<nat, Allocation>)
    ensures AwakeIn(table, table, {})
  {
  }

  lemma {:induction false} AwakeAt(table: map<nat, Allocation>, table': map<nat, Allocation>, done: set<nat>, p: nat)
    requires AwakeIn(table, table', done) && p in table && p !in done
    ensures p in table' && table'[p] == table[p]
  {
  }

  lemma {:induction false} WokenOne(s: State, s': State, p: nat, table: map<nat, Allocation>, done: set<nat>)
    requires p in s'.table && WakeStep(s, s', p, s'.table[p].handles)
    requires AllRight(s) && Spares(s, s', p) && Right(s', p)
    requires AwakeIn(table, s.table, done) && p !in done && p in table
    ensures table[p].asleep && s'.table.Keys == table.Keys && Sound(s'.d) && AllRight(s')
    ensures s'.d.reserved == s.d.reserved && AwakeIn(table, s'.table, done + {p})
  {
    hide Right, Spares, AllRight, WellSized, Tiles, Handles;
    RightAfter(s, s', p);
  }

  lemma {:induction false} WakeStopped(s: State, s': State, p: nat, table: map<nat, Allocation>, done: set<nat>)
    requires AllRight(s) && Spares(s, s', p) && p in s.table && p in s'.table
    requires s'.table == s.table[p := s.table[p].(handles := s'.table[p].handles)]
    requires AwakeIn(table, s.table, done) && p !in done && p in table
    ensures Sound(s'.d) && RightBut(s', p) && AwakeIn(table, s'.table[p := table[p]], done)
    ensures s'.table[p] == table[p].(handles := s'.table[p].handles)
  {
    hide Right, Spares, AllRight, RightBut;
    RightAfter(s, s', p);
    assert s'.table[p := table[p]] == s.table;
  }

  /** When every allocation is asleep, no physical memory is held. */
  lemma {:induction false} NothingAwake(s: State)
    requires Inv(s) && forall p :: p in s.table ==> s.table[p].asleep
    ensures s.d.live == {} && s.d.mapped == map[]
  {
    assert s.d.live == {} by {
      hide Reserved, Apart, Mapped;
    }
    forall a | a in s.d.mapped
      ensures false
    {
      hide Inv;
      var p := ChunkInside(s, a);
    }
  }
}
