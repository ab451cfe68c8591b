/** What the sleep-mode allocator keeps through every outcome, failures included: a sound driver, and every allocation
    that was not itself hit by a failure still as it should be. */
module CumemSound {
  import opened CumemDriver
  import opened CumemRuns

  // ---- A sound driver -----------------------------------------------------------------------

  /** Reservations are not empty and do not overlap. */
  ghost predicate RangesApart(d: Driver) {
    && (forall r :: r in d.reserved ==> d.reserved[r] > 0)
    && (forall r, q :: r in d.reserved && q in d.reserved && r != q ==>
          Disjoint(r, d.reserved[r], q, d.reserved[q]))
  }

  ghost predicate Inside(d: Driver, a: nat) {
    a in d.mapped && exists r :: r in d.reserved && r <= a && a + d.mapped[a].size <= r + d.reserved[r]
  }

  /** Chunks are not empty, lie in reservations and do not overlap. */
  ghost predicate ChunksApart(d: Driver) {
    && (forall a :: a in d.mapped ==> d.mapped[a].size > 0 && Inside(d, a))
    && (forall a, b :: a in d.mapped && b in d.mapped && a != b ==>
          Disjoint(a, d.mapped[a].size, b, d.mapped[b].size))
  }

  /** Every chunk has a live handle to itself. */
  ghost predicate HandlesApart(d: Driver) {
    && (forall a :: a in d.mapped ==> d.mapped[a].handle in d.live)
    && (forall a, b :: a in d.mapped && b in d.mapped && a != b ==> d.mapped[a].handle != d.mapped[b].handle)
  }

  ghost predicate Sound(d: Driver) {
    RangesApart(d) && ChunksApart(d) && HandlesApart(d)
  }

  lemma {:induction false} SoundDriverOk(d: Driver)
    requires Sound(d)
    ensures DriverOk(d)
  {
    hide HandlesApart, Disjoint;
    forall a | a in d.mapped
      ensures exists r :: r in d.reserved && r <= a && a + d.mapped[a].size <= r + d.reserved[r]
    {
      assert Inside(d, a);
    }
  }

  // ---- An allocation as it should be --------------------------------------------------------

  /** No chunk is mapped under one of these handles. */
  ghost predicate NotMapped(d: Driver, handles: seq<nat>) {
    forall a :: a in d.mapped ==> d.mapped[a].handle !in handles
  }

  /** The address is reserved as recorded; an allocation that is awake has its chunks, and one that is asleep has
      nothing in its range, nor chunks elsewhere. */
  ghost predicate Right(s: State, p: nat) {
    && p in s.table && p in s.d.reserved && s.d.reserved[p] == s.table[p].size
    && WellSized(s.table[p]) && Backed(s.d, p, s.table[p])
    && (s.table[p].asleep ==> RangeFree(s.d, p, s.table[p].size) && NotMapped(s.d, s.table[p].handles))
  }

  /** The driver stays sound, and every allocation but `p` that was as it should be still is. */
  ghost predicate Spares(s: State, s': State, p: nat) {
    Sound(s'.d) && forall q :: q != p && Right(s, q) ==> Right(s', q)
  }

  /** Chunk `k` of an allocation that is awake. */
  lemma {:induction false} RightChunk(s: State, p: nat, k: nat)
    requires Right(s, p) && !s.table[p].asleep && k < |s.table[p].sizes|
    ensures var t := s.table[p];
            && |t.handles| == |t.sizes| && ChunkAt(s.d, p, t, k)
            && Sum(t.sizes, k) + t.sizes[k] <= t.size && t.sizes[k] > 0
  {
    hide Sum;
    SumIncreases(s.table[p].sizes, k, |s.table[p].sizes|);
  }

  /** Only its own chunks lie in the range of an allocation that is awake. */
  lemma {:induction false} OwnChunk(s: State, p: nat, a: nat)
    requires Sound(s.d) && Right(s, p) && !s.table[p].asleep && a in s.d.mapped
    ensures a in TileKeys(p, s.table[p].sizes, |s.table[p].sizes|) ||
            Disjoint(p, s.table[p].size, a, s.d.mapped[a].size)
  {
    hide RangesApart, HandlesApart, Sum, Backed, RangeFree, NotMapped;
    var t := s.table[p];
    var x := if a < p then p else a;
    if p <= x < p + t.size && x < a + s.d.mapped[a].size {
      var k := TilesCover(p, t.sizes, |t.sizes|, x);
      RightChunk(s, p, k);
      var b := p + Sum(t.sizes, k);
      assert b in TileKeys(p, t.sizes, |t.sizes|);
      assert !Disjoint(b, s.d.mapped[b].size, a, s.d.mapped[a].size);
    }
  }

  /** Two allocations that are as they should be do not overlap. */
  lemma {:induction false} RightApart(s: State, p: nat, q: nat)
    requires Sound(s.d) && Right(s, p) && Right(s, q) && p != q
    ensures Disjoint(p, s.table[p].size, q, s.table[q].size)
  {
    hide ChunksApart, HandlesApart, Disjoint, WellSized, Backed, RangeFree, NotMapped;
  }

  // ---- Ranges -------------------------------------------------------------------------------

  lemma {:induction false} RangesApartAdded(d: Driver, addr: nat, size: nat)
    requires RangesApart(d) && CanReserve(d, addr, size) && size > 0
    ensures addr !in d.reserved && RangesApart(WithRange(d, addr, size))
  {
  }

  lemma {:induction false} RangesApartRemoved(d: Driver, addr: nat)
    requires RangesApart(d)
    ensures RangesApart(WithoutRange(d, addr))
  {
    hide Disjoint;
  }

  /** Chunks that stay inside reservations stay apart. */
  lemma {:induction false} ChunksStay(d: Driver, d': Driver)
    requires ChunksApart(d) && HandlesApart(d) && d'.mapped == d.mapped && d'.live == d.live
    requires forall a :: a in d.mapped ==> Inside(d', a)
    ensures ChunksApart(d') && HandlesApart(d')
  {
    hide Disjoint, Inside;
  }

  /** A range that can be reserved has no chunks in it. */
  lemma {:induction false} NothingThere(d: Driver, addr: nat, size: nat, a: nat)
    requires ChunksApart(d) && CanReserve(d, addr, size) && a in d.mapped
    ensures Disjoint(addr, size, a, d.mapped[a].size)
  {
    assert Inside(d, a);
  }

  lemma {:induction false} StaysInside(d: Driver, d': Driver, a: nat)
    requires Inside(d, a) && d'.mapped == d.mapped
    requires forall r :: r in d.reserved ==> r in d'.reserved && d'.reserved[r] == d.reserved[r]
    ensures Inside(d', a)
  {
  }

  lemma {:induction false} RangeAdded(d: Driver, addr: nat, size: nat)
    requires Sound(d) && CanReserve(d, addr, size) && size > 0
    ensures addr !in d.reserved && Sound(WithRange(d, addr, size))
    ensures RangeFree(d, addr, size) && RangeFree(WithRange(d, addr, size), addr, size)
  {
    hide RangesApart, HandlesApart, CanReserve, Disjoint, Inside;
    var d' := WithRange(d, addr, size);
    RangesApartAdded(d, addr, size);
    forall a | a in d.mapped
      ensures Inside(d', a) && Disjoint(addr, size, a, d.mapped[a].size)
    {
      StaysInside(d, d', a);
      NothingThere(d, addr, size, a);
    }
    ChunksStay(d, d');
  }

  lemma {:induction false} InsideElsewhere(d: Driver, addr: nat, a: nat)
    requires Inside(d, a) && d.mapped[a].size > 0 && addr in d.reserved && RangeFree(d, addr, d.reserved[addr])
    ensures Inside(WithoutRange(d, addr), a)
  {
    var r :| r in d.reserved && r <= a && a + d.mapped[a].size <= r + d.reserved[r];
    var d' := WithoutRange(d, addr);
    assert r in d'.reserved && a + d'.mapped[a].size <= r + d'.reserved[r];
  }

  lemma {:induction false} RangeRemoved(d: Driver, addr: nat)
    requires Sound(d) && addr in d.reserved && RangeFree(d, addr, d.reserved[addr])
    ensures Sound(WithoutRange(d, addr))
  {
    hide RangesApart, HandlesApart, RangeFree, Disjoint, Inside;
    var d' := WithoutRange(d, addr);
    RangesApartRemoved(d, addr);
    forall a | a in d.mapped
      ensures Inside(d', a)
    {
      InsideElsewhere(d, addr, a);
    }
    ChunksStay(d, d');
  }

  /** More live handles do no harm. */
  lemma {:induction false} MoreLive(d: Driver, h: nat)
    requires Sound(d)
    ensures Sound(d.(live := d.live + {h}))
  {
    hide Disjoint;
    var d' := d.(live := d.live + {h});
    forall a | a in d.mapped
      ensures Inside(d', a)
    {
      assert Inside(d, a);
    }
  }

  /** Fewer do none either if nothing is mapped under them. */
  lemma {:induction false} FewerLive(d: Driver, handles: seq<nat>)
    requires Sound(d) && NotMapped(d, handles)
    ensures Sound(d.(live := d.live - Handles(handles, |handles|)))
  {
    hide Disjoint;
    var d' := d.(live := d.live - Handles(handles, |handles|));
    forall a | a in d.mapped
      ensures Inside(d', a) && d.mapped[a].handle !in Handles(handles, |handles|)
    {
      assert Inside(d, a);
    }
  }

  // ---- Chunks -------------------------------------------------------------------------------

  /** A range inside a reservation in which nothing is mapped. */
  ghost predicate Room(d: Driver, base: nat, size: nat) {
    && (exists r :: r in d.reserved && r <= base && base + size <= r + d.reserved[r])
    && RangeFree(d, base, size)
  }

  /** What is mapped after chunks were added: an old chunk, or chunk `k`. */
  lemma {:induction false} AddedAt(d: Driver, p: nat, t: Allocation, a: nat) returns (k: nat)
    requires WellSized(t) && a in WithChunks(d, p, t.sizes, t.handles).mapped
    ensures var d' := WithChunks(d, p, t.sizes, t.handles);
            if a in TileKeys(p, t.sizes, |t.sizes|) then
              && k < |t.sizes| && a == p + Sum(t.sizes, k) && d'.mapped[a] == Mapping(t.sizes[k], t.handles[k])
              && Sum(t.sizes, k) + t.sizes[k] <= t.size && t.sizes[k] > 0
            else a in d.mapped && d'.mapped[a] == d.mapped[a]
  {
    hide Sum, Tiles, Handles;
    k := 0;
    TilesKeys(p, t.sizes, t.handles, |t.sizes|);
    if a in TileKeys(p, t.sizes, |t.sizes|) {
      k :| 0 <= k < |t.sizes| && a == p + Sum(t.sizes, k);
      TilesAt(p, t.sizes, t.handles, |t.sizes|, k);
      SumIncreases(t.sizes, k, |t.sizes|);
    }
  }

  /** Different chunks of an allocation do not overlap. */
  lemma {:induction false} TilesApart(p: nat, t: Allocation, i: nat, j: nat)
    requires WellSized(t) && i < |t.sizes| && j < |t.sizes| && i != j
    ensures Disjoint(p + Sum(t.sizes, i), t.sizes[i], p + Sum(t.sizes, j), t.sizes[j])
  {
    SumIncreases(t.sizes, if i < j then i else j, if i < j then j else i);
  }

  /** Two chunks do not overlap and have different handles. */
  ghost predicate PairApart(d: Driver, a: nat, b: nat)
    requires a in d.mapped && b in d.mapped
  {
    Disjoint(a, d.mapped[a].size, b, d.mapped[b].size) && d.mapped[a].handle != d.mapped[b].handle
  }

  lemma {:induction false} OldPairApart(d: Driver, a: nat, b: nat)
    requires ChunksApart(d) && HandlesApart(d) && a in d.mapped && b in d.mapped && a != b
    ensures PairApart(d, a, b)
  {
    hide Inside;
  }

  /** A new chunk and any other one. */
  lemma {:induction false} NewPairApart(d: Driver, p: nat, t: Allocation, a: nat, b: nat)
    requires Sound(d) && WellSized(t) && !t.asleep
    requires RangeFree(d, p, t.size) && Handles(t.handles, |t.handles|) !! d.live
    requires var d' := WithChunks(d, p, t.sizes, t.handles); a in d'.mapped && b in d'.mapped && a != b
    requires a in TileKeys(p, t.sizes, |t.sizes|)
    ensures PairApart(WithChunks(d, p, t.sizes, t.handles), a, b)
    ensures PairApart(WithChunks(d, p, t.sizes, t.handles), b, a)
  {
    hide RangesApart, ChunksApart, Sum, WithChunks, TileKeys;
    var i := AddedAt(d, p, t, a);
    var j := AddedAt(d, p, t, b);
    if b in TileKeys(p, t.sizes, |t.sizes|) {
      TilesApart(p, t, i, j);
    } else {
      assert t.handles[i] in Handles(t.handles, |t.handles|);
    }
  }

  lemma {:induction false} AddedPairApart(d: Driver, p: nat, t: Allocation, a: nat, b: nat)
    requires Sound(d) && WellSized(t) && !t.asleep
    requires RangeFree(d, p, t.size) && Handles(t.handles, |t.handles|) !! d.live
    requires var d' := WithChunks(d, p, t.sizes, t.handles); a in d'.mapped && b in d'.mapped && a != b
    ensures PairApart(WithChunks(d, p, t.sizes, t.handles), a, b)
  {
    hide Sound, WellSized, RangeFree, WithChunks, Handles, TileKeys;
    if a in TileKeys(p, t.sizes, |t.sizes|) {
      NewPairApart(d, p, t, a, b);
    } else if b in TileKeys(p, t.sizes, |t.sizes|) {
      NewPairApart(d, p, t, b, a);
    } else {
      BothOld(d, p, t, a, b);
    }
  }

  lemma {:induction false} BothOld(d: Driver, p: nat, t: Allocation, a: nat, b: nat)
    requires Sound(d) && WellSized(t) && a != b
    requires var d' := WithChunks(d, p, t.sizes, t.handles); a in d'.mapped && b in d'.mapped
    requires a !in TileKeys(p, t.sizes, |t.sizes|) && b !in TileKeys(p, t.sizes, |t.sizes|)
    ensures PairApart(WithChunks(d, p, t.sizes, t.handles), a, b)
  {
    hide RangesApart, ChunksApart, HandlesApart, WithChunks, TileKeys, WellSized, Disjoint;
    var i := AddedAt(d, p, t, a);
    var j := AddedAt(d, p, t, b);
    OldPairApart(d, a, b);
  }

  lemma {:induction false} AddedInside(d: Driver, p: nat, t: Allocation, a: nat)
    requires Sound(d) && WellSized(t) && Room(d, p, t.size) && a in WithChunks(d, p, t.sizes, t.handles).mapped
    ensures var d' := WithChunks(d, p, t.sizes, t.handles);
            d'.mapped[a].size > 0 && Inside(d', a) && d'.mapped[a].handle in d'.live
  {
    hide RangesApart, TileKeys, RangeFree, Tiles, Sum, Positive, DistinctHandles;
    var d' := WithChunks(d, p, t.sizes, t.handles);
    var k := AddedAt(d, p, t, a);
    if a in TileKeys(p, t.sizes, |t.sizes|) {
      var r :| r in d.reserved && r <= p && p + t.size <= r + d.reserved[r];
      assert r in d'.reserved;
    } else {
      assert Inside(d, a);
    }
  }

  lemma {:induction false} ChunksAdded(d: Driver, p: nat, t: Allocation)
    requires Sound(d) && WellSized(t) && !t.asleep && Room(d, p, t.size) && Handles(t.handles, |t.handles|) !! d.live
    ensures Sound(WithChunks(d, p, t.sizes, t.handles))
  {
    hide RangesApart, ChunksApart, HandlesApart, Handles, Tiles, Inside, RangeFree, Sum, Positive, DistinctHandles;
    hide PairApart;
    var d' := WithChunks(d, p, t.sizes, t.handles);
    RangesSame(d, d');
    forall a | a in d'.mapped
      ensures d'.mapped[a].size > 0 && Inside(d', a) && d'.mapped[a].handle in d'.live
    {
      AddedInside(d, p, t, a);
    }
    forall a, b | a in d'.mapped && b in d'.mapped && a != b
      ensures PairApart(d', a, b)
    {
      AddedPairApart(d, p, t, a, b);
    }
    AllApart(d');
  }

  lemma {:induction false} AllApart(d: Driver)
    requires forall a :: a in d.mapped ==> d.mapped[a].size > 0 && Inside(d, a) && d.mapped[a].handle in d.live
    requires forall a, b :: a in d.mapped && b in d.mapped && a != b ==> PairApart(d, a, b)
    ensures ChunksApart(d) && HandlesApart(d)
  {
    hide Inside, Disjoint;
  }

  /** Fewer chunks and their handles. */
  lemma {:induction false} ChunksRemoved(d: Driver, p: nat, t: Allocation)
    requires Sound(d) && WellSized(t) && Backed(d, p, t) && !t.asleep
    ensures Sound(WithoutChunks(d, p, t.sizes, t.handles))
  {
    hide Disjoint, Backed, Sum, Inside, RangesApart, Positive, DistinctHandles, TileKeys, Handles;
    var d' := WithoutChunks(d, p, t.sizes, t.handles);
    assert RangesApart(d') by {
      RangesSame(d, d');
    }
    forall a | a in d'.mapped
      ensures d'.mapped[a] == d.mapped[a] && Inside(d', a) && d'.mapped[a].handle in d'.live
    {
      RemainsInside(d, p, t, a);
    }
  }

  lemma {:induction false} RangesSame(d: Driver, d': Driver)
    requires RangesApart(d) && d'.reserved == d.reserved
    ensures RangesApart(d')
  {
    hide Disjoint;
  }

  lemma {:induction false} RemainsInside(d: Driver, p: nat, t: Allocation, a: nat)
    requires Sound(d) && WellSized(t) && Backed(d, p, t) && !t.asleep
    requires a in WithoutChunks(d, p, t.sizes, t.handles).mapped
    ensures var d' := WithoutChunks(d, p, t.sizes, t.handles);
            && a in d.mapped && d'.mapped[a] == d.mapped[a] && Inside(d', a) && d'.mapped[a].handle in d'.live
            && d.mapped[a].handle !in Handles(t.handles, |t.handles|)
  {
    hide Disjoint, Sum, RangesApart;
    assert Inside(d, a);
    forall k | 0 <= k < |t.handles|
      ensures t.handles[k] != d.mapped[a].handle
    {
      BackedAt(d, p, t, k);
      assert p + Sum(t.sizes, k) in TileKeys(p, t.sizes, |t.sizes|);
    }
  }

  // ---- Who is spared ------------------------------------------------------------------------

  /** None of these handles is in a record. */
  ghost predicate NewHandles(table: map<nat, Allocation>, handles: seq<nat>) {
    forall q, h :: q in table && h in handles ==> h !in table[q].handles
  }

  /** An allocation depends on its record, its reservation and what is mapped. */
  lemma {:induction false} RightSame(s: State, s': State, q: nat)
    requires Right(s, q) && q in s'.table && s'.table[q] == s.table[q]
    requires q in s'.d.reserved && s'.d.reserved[q] == s.d.reserved[q] && s'.d.mapped == s.d.mapped
    ensures Right(s', q)
  {
    hide Sum, Disjoint, Positive, DistinctHandles;
    var t := s.table[q];
    forall k | 0 <= k < |t.sizes| && !t.asleep
      ensures ChunkAt(s'.d, q, t, k)
    {
      assert ChunkAt(s.d, q, t, k);
    }
  }

  /** Where the new chunks of an allocation are, seen from another range. */
  lemma {:induction false} RangeStaysFree(d: Driver, p: nat, t: Allocation, q: nat, size: nat)
    requires WellSized(t) && Disjoint(p, t.size, q, size) && RangeFree(d, q, size)
    ensures RangeFree(WithChunks(d, p, t.sizes, t.handles), q, size)
  {
    hide WithChunks, TileKeys, WellSized;
    assert WellSized(t);
    SameCount(t);
    var d' := WithChunks(d, p, t.sizes, t.handles);
    forall a | a in d'.mapped
      ensures Disjoint(q, size, a, d'.mapped[a].size)
    {
      var k := AddedAt(d, p, t, a);
    }
  }

  lemma {:induction false} SameCount(t: Allocation)
    requires WellSized(t)
    ensures |t.handles| == |t.sizes|
  {
  }

  lemma {:induction false} StaysUnmapped(d: Driver, p: nat, t: Allocation, handles: seq<nat>)
    requires WellSized(t) && NotMapped(d, handles) && forall h :: h in t.handles ==> h !in handles
    ensures NotMapped(WithChunks(d, p, t.sizes, t.handles), handles)
  {
    hide WithChunks, TileKeys, WellSized;
    SameCount(t);
    var d' := WithChunks(d, p, t.sizes, t.handles);
    forall a | a in d'.mapped
      ensures d'.mapped[a].handle !in handles
    {
      var k := AddedAt(d, p, t, a);
    }
  }

  lemma {:induction false} StaysBacked(d: Driver, p: nat, t: Allocation, q: nat, u: Allocation)
    requires WellSized(t) && !t.asleep && WellSized(u) && Disjoint(p, t.size, q, u.size) && Backed(d, q, u)
    ensures Backed(WithChunks(d, p, t.sizes, t.handles), q, u)
  {
    hide Sum, Tiles, Disjoint, Positive, DistinctHandles, TileKeys, Handles, Backed;
    TilesKeys(p, t.sizes, t.handles, |t.sizes|);
    KeysApart(p, t, q, u);
    OthersBacked(d, WithChunks(d, p, t.sizes, t.handles), q, u, TileKeys(p, t.sizes, |t.sizes|));
  }

  /** New chunks spare an allocation with another range and other handles. */
  lemma {:induction false} RightAfterAdd(s: State, s': State, p: nat, t: Allocation, q: nat)
    requires Right(s, q) && WellSized(t) && !t.asleep && Disjoint(p, t.size, q, s.table[q].size)
    requires forall h :: h in t.handles ==> h !in s.table[q].handles
    requires s'.d == WithChunks(s.d, p, t.sizes, t.handles) && q in s'.table && s'.table[q] == s.table[q]
    ensures Right(s', q)
  {
    hide WellSized, Backed, RangeFree, NotMapped, Disjoint;
    SameCount(t);
    var u := s.table[q];
    assert s'.d.reserved == s.d.reserved;
    StaysBacked(s.d, p, t, q, u);
    if u.asleep {
      RangeStaysFree(s.d, p, t, q, u.size);
      StaysUnmapped(s.d, p, t, u.handles);
    }
  }

  /** And make their own as it should be. */
  lemma {:induction false} RightWithChunks(s: State, s': State, p: nat, t: Allocation)
    requires WellSized(t) && !t.asleep && s'.d == WithChunks(s.d, p, t.sizes, t.handles)
    requires p in s.d.reserved && s.d.reserved[p] == t.size && p in s'.table && s'.table[p] == t
    ensures Right(s', p)
  {
    hide WellSized, Backed, Tiles, Handles;
    SameCount(t);
    ChunksBacked(s.d, p, t);
  }

  lemma {:induction false} RemovedBacked(d: Driver, p: nat, t: Allocation, q: nat, u: Allocation)
    requires WellSized(t) && !t.asleep && WellSized(u) && Disjoint(p, t.size, q, u.size) && Backed(d, q, u)
    ensures Backed(WithoutChunks(d, p, t.sizes, t.handles), q, u)
  {
    hide Sum, Disjoint, Positive, DistinctHandles, TileKeys, Handles, Backed;
    KeysApart(p, t, q, u);
    OthersBacked(d, WithoutChunks(d, p, t.sizes, t.handles), q, u, TileKeys(p, t.sizes, |t.sizes|));
  }

  /** Chunks that go spare every other allocation. */
  lemma {:induction false} RightAfterRemove(s: State, s': State, p: nat, q: nat)
    requires Sound(s.d) && Right(s, p) && !s.table[p].asleep && Right(s, q) && q != p
    requires s'.d == WithoutChunks(s.d, p, s.table[p].sizes, s.table[p].handles)
    requires q in s'.table && s'.table[q] == s.table[q]
    ensures Right(s', q)
  {
    hide WellSized, Backed, Disjoint, Sound, TileKeys, Handles;
    SameCount(s.table[p]);
    RightApart(s, p, q);
    RemovedBacked(s.d, p, s.table[p], q, s.table[q]);
  }

  /** And leave their own range free. */
  lemma {:induction false} RightAsleep(s: State, s': State, p: nat)
    requires Sound(s.d) && Right(s, p) && !s.table[p].asleep
    requires s'.d == WithoutChunks(s.d, p, s.table[p].sizes, s.table[p].handles)
    requires p in s'.table && s'.table[p] == s.table[p].(asleep := true)
    ensures Right(s', p) && RangeFree(s'.d, p, s.table[p].size)
  {
    hide Sound, Backed, Sum, Positive, DistinctHandles, Disjoint, TileKeys, Handles;
    var t := s.table[p];
    forall a | a in s'.d.mapped
      ensures Disjoint(p, t.size, a, s'.d.mapped[a].size) && s'.d.mapped[a].handle !in t.handles
    {
      OwnChunk(s, p, a);
      RemainsInside(s.d, p, t, a);
      NotAmong(t.handles, s.d.mapped[a].handle);
    }
    StillBacked(s'.d, p, s'.table[p]);
  }

  lemma {:induction false} NotAmong(handles: seq<nat>, h: nat)
    requires h !in Handles(handles, |handles|)
    ensures h !in handles
  {
  }

  lemma {:induction false} StillBacked(d: Driver, p: nat, t: Allocation)
    requires t.asleep && |t.handles| == |t.sizes|
    ensures Backed(d, p, t)
  {
  }

  // ---- Every outcome spares the others ------------------------------------------------------

  lemma {:induction false} MallocSpares(s: State, s': State, p: nat, t: Allocation)
    requires Sound(s.d) && MallocStep(s, s', p, t) && NewHandles(s.table, t.handles)
    ensures Spares(s, s', p) && Right(s', p) && !Right(s, p)
  {
    hide Sound, WellSized, CanReserve, Right, WithRange, Handles, WithChunks;
    SizePositive(t);
    SameCount(t);
    var m := State(WithRange(s.d, p, t.size), s.table);
    RangeAdded(s.d, p, t.size);
    RangeRoom(s.d, p, t.size);
    NotRight(s, p);
    ChunksAdded(m.d, p, t);
    RightWithChunks(m, s', p, t);
    forall q | q != p && Right(s, q)
      ensures Right(s', q)
    {
      RangeSpares(s, p, t.size, q);
      InTable(s, q);
      RightAfterAdd(m, s', p, t, q);
    }
  }

  lemma {:induction false} SizePositive(t: Allocation)
    requires WellSized(t)
    ensures t.size > 0
  {
  }

  lemma {:induction false} InTable(s: State, q: nat)
    requires Right(s, q)
    ensures q in s.table && WellSized(s.table[q])
  {
  }

  lemma {:induction false} NotRight(s: State, p: nat)
    requires p !in s.d.reserved
    ensures !Right(s, p)
  {
  }

  lemma {:induction false} RangeRoom(d: Driver, p: nat, size: nat)
    requires RangeFree(d, p, size)
    ensures WithRange(d, p, size).live == d.live && Room(WithRange(d, p, size), p, size)
    ensures p in WithRange(d, p, size).reserved && WithRange(d, p, size).reserved[p] == size
  {
    var d' := WithRange(d, p, size);
    assert p in d'.reserved && p + size <= p + d'.reserved[p];
  }

  /** A new reservation spares every allocation. */
  lemma {:induction false} RangeSpares(s: State, p: nat, size: nat, q: nat)
    requires Right(s, q) && CanReserve(s.d, p, size) && p !in s.d.reserved
    ensures Right(State(WithRange(s.d, p, size), s.table), q) && Disjoint(p, size, q, s.table[q].size)
  {
    hide WellSized, Backed, RangeFree, NotMapped, Disjoint;
    RightSame(s, State(WithRange(s.d, p, size), s.table), q);
  }

  lemma {:induction false} SleepSpares(s: State, s': State, p: nat)
    requires Sound(s.d) && Right(s, p) && SleepStep(s, s', p)
    ensures Sound(s'.d) && Spares(s, s', p) && Right(s', p) && RangeFree(s'.d, p, s.table[p].size)
  {
    hide Sound, WellSized, Right, WithoutChunks, RangeFree;
    RightRecord(s, p);
    ChunksRemoved(s.d, p, s.table[p]);
    RightAsleep(s, s', p);
    forall q | q != p && Right(s, q)
      ensures Right(s', q)
    {
      InTable(s, q);
      RightAfterRemove(s, s', p, q);
    }
  }

  lemma {:induction false} RightRecord(s: State, p: nat)
    requires Right(s, p)
    ensures p in s.table && WellSized(s.table[p]) && |s.table[p].handles| == |s.table[p].sizes|
    ensures p in s.d.reserved && s.d.reserved[p] == s.table[p].size > 0 && Backed(s.d, p, s.table[p])
    ensures s.table[p].asleep ==> RangeFree(s.d, p, s.table[p].size) && NotMapped(s.d, s.table[p].handles)
    ensures Positive(s.table[p].sizes) && Sum(s.table[p].sizes, |s.table[p].sizes|) == s.table[p].size
  {
  }

  /** Chunks mapped at `p`, whether its record says so or not. */
  lemma {:induction false} WakeSpares(s: State, s': State, p: nat, hs: seq<nat>)
    requires Sound(s.d) && Right(s, p) && s.table[p].asleep && NewHandles(s.table, hs)
    requires WellSized(s.table[p].(handles := hs, asleep := false)) && Handles(hs, |hs|) !! s.d.live
    requires |hs| == |s.table[p].sizes| && s'.d == WithChunks(s.d, p, s.table[p].sizes, hs)
    requires forall q :: q in s.table && q != p ==> q in s'.table && s'.table[q] == s.table[q]
    ensures Spares(s, s', p)
    ensures p in s'.table && s'.table[p] == s.table[p].(handles := hs, asleep := false) ==> Right(s', p)
  {
    hide Sound, WellSized, Right, WithChunks, RangeFree, Handles;
    RightRecord(s, p);
    var t := s.table[p].(handles := hs, asleep := false);
    ReservedRoom(s.d, p, t.size);
    ChunksAdded(s.d, p, t);
    if p in s'.table && s'.table[p] == t {
      RightWithChunks(s, s', p, t);
    }
    forall q | q != p && Right(s, q)
      ensures Right(s', q)
    {
      InTable(s, q);
      RightApart(s, p, q);
      RightAfterAdd(s, s', p, t, q);
    }
  }

  lemma {:induction false} ReservedRoom(d: Driver, addr: nat, size: nat)
    requires addr in d.reserved && d.reserved[addr] == size && RangeFree(d, addr, size)
    ensures Room(d, addr, size)
  {
  }

  /** Giving up the reservation of an allocation without chunks, with or without its record. */
  lemma {:induction false} GiveUpSpares(s: State, s': State, p: nat)
    requires Sound(s.d) && p in s.d.reserved && RangeFree(s.d, p, s.d.reserved[p])
    requires s'.d == WithoutRange(s.d, p)
    requires forall q :: q in s.table && q != p ==> q in s'.table && s'.table[q] == s.table[q]
    ensures Spares(s, s', p)
  {
    hide Sound, Right, RangeFree;
    RangeRemoved(s.d, p);
    forall q | q != p && Right(s, q)
      ensures Right(s', q)
    {
      RightRecord(s, q);
      RightSame(s, s', q);
    }
  }

  /** Changes of the record of `p` and of handles that are not mapped. */
  lemma {:induction false} RecordSpares(s: State, s': State, p: nat)
    requires Sound(s'.d) && s'.d.reserved == s.d.reserved && s'.d.mapped == s.d.mapped
    requires forall q :: q in s.table && q != p ==> q in s'.table && s'.table[q] == s.table[q]
    ensures Spares(s, s', p)
  {
    hide Sound, Right;
    forall q | q != p && Right(s, q)
      ensures Right(s', q)
    {
      RightRecord(s, q);
      RightSame(s, s', q);
    }
  }

  /** One outcome after the other. */
  lemma {:induction false} SparesBoth(s: State, m: State, s': State, p: nat)
    requires Spares(s, m, p) && Spares(m, s', p)
    ensures Spares(s, s', p)
  {
    hide Sound, Right;
  }

  // ---- Where the table has everything -------------------------------------------------------

  /** When the driver holds exactly what the table says, it is sound. */
  lemma {:induction false} InvSound(s: State)
    requires Inv(s)
    ensures Sound(s.d)
  {
    hide Inv, DriverOk, Disjoint;
    assert RangesApart(s.d) by {
      InvRangesApart(s);
    }
    forall a | a in s.d.mapped
      ensures s.d.mapped[a].size > 0 && Inside(s.d, a) && s.d.mapped[a].handle in s.d.live
    {
      InvInside(s, a);
    }
    forall a, b | a in s.d.mapped && b in s.d.mapped && a != b
      ensures PairApart(s.d, a, b)
    {
      InvPairApart(s, a, b);
    }
    AllApart(s.d);
  }

  lemma {:induction false} InvRangesApart(s: State)
    requires Inv(s)
    ensures RangesApart(s.d)
  {
    hide Mapped, Live, Disjoint, HandlesOf;
  }

  lemma {:induction false} InvInside(s: State, a: nat)
    requires Inv(s) && a in s.d.mapped
    ensures s.d.mapped[a].size > 0 && Inside(s.d, a) && s.d.mapped[a].handle in s.d.live
  {
    hide Inv, WellSized, Backed, HandlesOf;
    var p := ChunkInside(s, a);
    InvAt(s, p);
    NoSharedHandle(s, a, a);
  }

  lemma {:induction false} InvPairApart(s: State, a: nat, b: nat)
    requires Inv(s) && a in s.d.mapped && b in s.d.mapped && a != b
    ensures PairApart(s.d, a, b)
  {
    hide Inv, Backed, HandlesOf;
    if s.d.mapped[a].handle == s.d.mapped[b].handle {
      NoSharedHandle(s, a, b);
    }
    var p, i := ChunkOwner(s, a);
    var q, j := ChunkOwner(s, b);
    InvAt(s, p);
    InvAt(s, q);
    if p == q {
      TilesApart(p, s.table[p], i, j);
    } else {
      InvApart(s, p, q);
      SumIncreases(s.table[p].sizes, i, |s.table[p].sizes|);
      SumIncreases(s.table[q].sizes, j, |s.table[q].sizes|);
    }
  }

  /** And every allocation is as it should be, unless one that is asleep has another's handle on record. */
  lemma {:induction false} InvRight(s: State, p: nat)
    requires Inv(s) && p in s.table
    ensures Right(s, p) <==> s.table[p].asleep ==> NotMapped(s.d, s.table[p].handles)
  {
    hide Inv, WellSized, Backed, NotMapped, RangeFree, HandlesOf;
    InvAt(s, p);
    if s.table[p].asleep {
      AsleepRangeFree(s, p);
    }
  }

  /** Nothing is mapped in the range of an allocation that is asleep. */
  lemma {:induction false} AsleepRangeFree(s: State, p: nat)
    requires Inv(s) && p in s.table && s.table[p].asleep
    ensures p in s.d.reserved && s.d.reserved[p] == s.table[p].size > 0
    ensures RangeFree(s.d, p, s.table[p].size)
  {
    hide Inv, Backed, HandlesOf, Sum;
    InvAt(s, p);
    forall a | a in s.d.mapped
      ensures Disjoint(p, s.table[p].size, a, s.d.mapped[a].size)
    {
      var q := ChunkInside(s, a);
      InvApart(s, q, p);
    }
  }

  // ---- Runs with failures -------------------------------------------------------------------

  /** Every call spares every allocation but the one it is for. */
  ghost predicate FailingRun(states: seq<State>, ps: seq<nat>) {
    && |states| == |ps| + 1 && Sound(states[0].d)
    && forall i :: 0 <= i < |ps| ==> Spares(states[i], states[i + 1], ps[i])
  }

  /** Over a run in which calls may fail, the driver stays sound, and an allocation that is as it should be stays so
      as long as no call is for it. */
  lemma {:induction false} FailingRunSpares(states: seq<State>, ps: seq<nat>, i: nat, j: nat, q: nat)
    requires FailingRun(states, ps) && i <= j < |states|
    requires Right(states[i], q) && forall k :: i <= k < j ==> ps[k] != q
    ensures Sound(states[j].d) && Right(states[j], q)
  {
    hide Right, Sound;
    if i == j {
      if j > 0 {
        assert Spares(states[j - 1], states[j], ps[j - 1]);
      }
    } else {
      FailingRunSpares(states, ps, i, j - 1, q);
      assert Spares(states[j - 1], states[j], ps[j - 1]);
    }
  }
}
