/** Runs of malloc, sleep, wake and free over many allocations (csrc/cumem_allocator.cpp, ROCm path,
    with the table that vllm/device_allocator/cumem.py keeps). */
module CumemRuns {
  import opened CumemDriver

  /** What the Python side keeps per address.  The handles are stale while asleep. */
  datatype Allocation = Allocation(size: nat, sizes: seq<nat>, handles: seq<nat>, asleep: bool)

  datatype State = State(d: Driver, table: map<nat, Allocation>)

  /** The addresses at which an allocation has chunks mapped. */
  function KeysOf(p: nat, t: Allocation): set<nat> {
    if t.asleep then {} else TileKeys(p, t.sizes, |t.sizes|)
  }

  function HandlesOf(t: Allocation): set<nat> {
    if t.asleep then {} else Handles(t.handles, |t.handles|)
  }

  predicate WellSized(t: Allocation) {
    && t.size > 0 && Positive(t.sizes) && |t.handles| == |t.sizes|
    && Sum(t.sizes, |t.sizes|) == t.size && (t.asleep || DistinctHandles(t.handles))
  }

  /** Chunk `k` of an allocation at `p` is mapped where it belongs. */
  predicate ChunkAt(d: Driver, p: nat, t: Allocation, k: nat)
    requires k < |t.handles| == |t.sizes|
  {
    p + Sum(t.sizes, k) in d.mapped && d.mapped[p + Sum(t.sizes, k)] == Mapping(t.sizes[k], t.handles[k])
  }

  predicate Backed(d: Driver, p: nat, t: Allocation) {
    && |t.handles| == |t.sizes|
    && forall k :: 0 <= k < |t.sizes| && !t.asleep ==> ChunkAt(d, p, t, k)
  }

  /** One reservation per allocation. */
  ghost predicate Reserved(s: State) {
    && s.d.reserved.Keys == s.table.Keys
    && (forall p :: p in s.table ==> s.d.reserved[p] == s.table[p].size && WellSized(s.table[p]))
  }

  /** No two allocations share an address or a handle. */
  ghost predicate Apart(s: State) {
    && (forall p, q :: p in s.table && q in s.table && p != q ==> Disjoint(p, s.table[p].size, q, s.table[q].size))
    && (forall p, q :: p in s.table && q in s.table && p != q ==> HandlesOf(s.table[p]) !! HandlesOf(s.table[q]))
  }

  ghost predicate Owned(s: State, a: nat) {
    exists p :: p in s.table && a in KeysOf(p, s.table[p])
  }

  /** The chunks of allocations that are awake are mapped, and nothing else is. */
  ghost predicate Mapped(s: State) {
    && (forall p :: p in s.table ==> Backed(s.d, p, s.table[p]))
    && (forall a :: a in s.d.mapped ==> Owned(s, a))
  }

  /** The handles of allocations that are awake are live, and no others are. */
  ghost predicate Live(s: State) {
    && (forall p :: p in s.table ==> HandlesOf(s.table[p]) <= s.d.live)
    && (forall h :: h in s.d.live ==> exists p :: p in s.table && h in HandlesOf(s.table[p]))
  }

  /** The driver holds exactly what the table says. */
  ghost predicate Inv(s: State) {
    Reserved(s) && Apart(s) && Mapped(s) && Live(s)
  }

  // ---- Steps --------------------------------------------------------------------------------

  /** The driver after chunks with new handles are mapped from `p` on. */
  function WithChunks(d: Driver, p: nat, sizes: seq<nat>, hs: seq<nat>): Driver
    requires |hs| == |sizes|
  {
    Driver(d.reserved, d.live + Handles(hs, |hs|), d.mapped + Tiles(p, sizes, hs, |sizes|))
  }

  function WithoutChunks(d: Driver, p: nat, sizes: seq<nat>, hs: seq<nat>): Driver
    requires |hs| == |sizes|
  {
    Driver(d.reserved, d.live - Handles(hs, |hs|), d.mapped - TileKeys(p, sizes, |sizes|))
  }

  predicate MallocStep(s: State, s': State, p: nat, t: Allocation) {
    && CanReserve(s.d, p, t.size) && WellSized(t) && !t.asleep
    && Handles(t.handles, |t.handles|) !! s.d.live
    && s'.d == WithChunks(WithRange(s.d, p, t.size), p, t.sizes, t.handles)
    && s'.table == s.table[p := t]
  }

  /** The address is freed and reserved again, so the reservation is as before. */
  predicate SleepStep(s: State, s': State, p: nat) {
    && p in s.table && !s.table[p].asleep && WellSized(s.table[p])
    && s'.d == WithoutChunks(s.d, p, s.table[p].sizes, s.table[p].handles)
    && s'.table == s.table[p := s.table[p].(asleep := true)]
  }

  predicate WakeStep(s: State, s': State, p: nat, hs: seq<nat>) {
    && p in s.table && s.table[p].asleep && WellSized(s.table[p].(handles := hs, asleep := false))
    && Handles(hs, |hs|) !! s.d.live
    && s'.d == WithChunks(s.d, p, s.table[p].sizes, hs)
    && s'.table == s.table[p := s.table[p].(handles := hs, asleep := false)]
  }

  predicate FreeStep(s: State, s': State, p: nat) {
    && p in s.table && WellSized(s.table[p])
    && (var t := s.table[p];
        var d := if t.asleep then s.d else WithoutChunks(s.d, p, t.sizes, t.handles);
        s'.d == WithoutRange(d, p))
    && s'.table == s.table - {p}
  }

  ghost predicate Next(s: State, s': State) {
    || (exists p, t :: MallocStep(s, s', p, t))
    || (exists p :: SleepStep(s, s', p))
    || (exists p, hs :: WakeStep(s, s', p, hs))
    || (exists p :: FreeStep(s, s', p))
  }

  ghost predicate Run(states: seq<State>) {
    && states != [] && states[0] == State(Driver(map[], {}, map[]), map[])
    && forall i :: 0 <= i < |states| - 1 ==> Next(states[i], states[i + 1])
  }

  // ---- Every step keeps the invariant -------------------------------------------------------

  lemma {:induction false} KeysInRange(p: nat, sizes: seq<nat>, i: nat, a: nat)
    requires Positive(sizes) && i <= |sizes| && a in TileKeys(p, sizes, i)
    ensures p <= a < p + Sum(sizes, i)
  {
    var k :| 0 <= k < i && a == p + Sum(sizes, k);
    SumIncreases(sizes, k, i);
  }

  /** Allocations in disjoint ranges have no chunk address in common. */
  lemma {:induction false} KeysApart(p: nat, t: Allocation, q: nat, u: Allocation)
    requires WellSized(t) && WellSized(u) && Disjoint(p, t.size, q, u.size)
    ensures KeysOf(p, t) !! KeysOf(q, u)
    ensures !t.asleep ==> TileKeys(p, t.sizes, |t.sizes|) !! KeysOf(q, u)
  {
    forall a | a in TileKeys(p, t.sizes, |t.sizes|)
      ensures p <= a < p + t.size
    {
      KeysInRange(p, t.sizes, |t.sizes|, a);
    }
    forall a | a in KeysOf(q, u)
      ensures q <= a < q + u.size
    {
      KeysInRange(q, u.sizes, |u.sizes|, a);
    }
  }

  /** Adding the chunks of `p` backs it. */
  lemma {:induction false} ChunksBacked(d: Driver, p: nat, t: Allocation)
    requires WellSized(t)
    ensures Backed(WithChunks(d, p, t.sizes, t.handles), p, t)
  {
    forall k | 0 <= k < |t.sizes|
      ensures ChunkAt(WithChunks(d, p, t.sizes, t.handles), p, t, k)
    {
      TilesAt(p, t.sizes, t.handles, |t.sizes|, k);
    }
  }

  /** An allocation none of whose chunks is touched stays backed. */
  lemma {:induction false} OthersBacked(d: Driver, d': Driver, q: nat, u: Allocation, touched: set<nat>)
    requires WellSized(u) && Backed(d, q, u) && touched !! KeysOf(q, u)
    requires forall a :: a in d.mapped && a !in touched ==> a in d'.mapped && d'.mapped[a] == d.mapped[a]
    ensures Backed(d', q, u)
  {
    forall k | 0 <= k < |u.sizes| && !u.asleep
      ensures ChunkAt(d', q, u, k)
    {
      assert ChunkAt(d, q, u, k);
      assert q + Sum(u.sizes, k) in KeysOf(q, u);
    }
  }

  // Mapping the chunks of `t` at `p`, where there is nothing or an allocation that is asleep.

  ghost predicate AddsChunks(s: State, s': State, p: nat, t: Allocation) {
    && WellSized(t) && !t.asleep && Handles(t.handles, |t.handles|) !! s.d.live
    && (p in s.table ==> s.table[p].asleep)
    && (forall q :: q in s.table && q != p ==> Disjoint(p, t.size, q, s.table[q].size))
    && s'.d == WithChunks(WithRange(s.d, p, t.size), p, t.sizes, t.handles)
    && s'.table == s.table[p := t]
  }

  lemma {:induction false} AddMapped(s: State, s': State, p: nat, t: Allocation)
    requires Reserved(s) && Reserved(s') && Mapped(s) && AddsChunks(s, s', p, t)
    ensures Mapped(s')
  {
    TilesKeys(p, t.sizes, t.handles, |t.sizes|);
    forall q | q in s'.table
      ensures Backed(s'.d, q, s'.table[q])
    {
      if q == p {
        ChunksBacked(WithRange(s.d, p, t.size), p, t);
      } else {
        KeysApart(p, t, q, s.table[q]);
        OthersBacked(s.d, s'.d, q, s.table[q], TileKeys(p, t.sizes, |t.sizes|));
      }
    }
    hide Backed, WellSized, TileKeys, Tiles;
    forall a | a in s'.d.mapped
      ensures Owned(s', a)
    {
      if a in TileKeys(p, t.sizes, |t.sizes|) {
        assert a in KeysOf(p, s'.table[p]);
      } else {
        var q :| q in s.table && a in KeysOf(q, s.table[q]);
        assert a in KeysOf(q, s'.table[q]);
      }
    }
  }

  lemma {:induction false} AddLive(s: State, s': State, p: nat, t: Allocation)
    requires Live(s) && AddsChunks(s, s', p, t)
    ensures Live(s')
  {
    hide WellSized, Disjoint, Handles;
    forall h | h in s'.d.live
      ensures exists q :: q in s'.table && h in HandlesOf(s'.table[q])
    {
      if h in s.d.live {
        var q :| q in s.table && h in HandlesOf(s.table[q]);
        assert h in HandlesOf(s'.table[q]);
      } else {
        assert h in HandlesOf(s'.table[p]);
      }
    }
  }

  lemma {:induction false} AddApart(s: State, s': State, p: nat, t: Allocation)
    requires Live(s) && Apart(s) && AddsChunks(s, s', p, t)
    ensures Apart(s')
  {
    hide WellSized, Handles, WithChunks;
    assert forall q :: q in s.table && q != p ==> HandlesOf(t) !! HandlesOf(s.table[q]);
    forall q, r | q in s'.table && r in s'.table && q != r
      ensures Disjoint(q, s'.table[q].size, r, s'.table[r].size) && HandlesOf(s'.table[q]) !! HandlesOf(s'.table[r])
    {
      if q == p {
        assert s'.table[r] == s.table[r];
      } else if r == p {
        assert s'.table[q] == s.table[q];
      }
    }
  }

  lemma {:induction false} AddKeeps(s: State, s': State, p: nat, t: Allocation)
    requires Inv(s) && AddsChunks(s, s', p, t)
    ensures Inv(s')
  {
    assert Reserved(s') by {
      hide WellSized;
    }
    hide Reserved, Apart, Mapped, Live, AddsChunks;
    AddMapped(s, s', p, t);
    AddLive(s, s', p, t);
    AddApart(s, s', p, t);
  }

  /** A new allocation is apart from the others, and one that is asleep keeps its own range. */
  lemma {:induction false} MallocKeeps(s: State, s': State, p: nat, t: Allocation)
    requires Inv(s) && MallocStep(s, s', p, t)
    ensures Inv(s') && p !in s.table
  {
    assert AddsChunks(s, s', p, t) by {
      hide Mapped, Live, Apart, WithChunks;
      assert p !in s.d.reserved;
    }
    AddKeeps(s, s', p, t);
  }

  lemma {:induction false} WakeKeeps(s: State, s': State, p: nat, hs: seq<nat>)
    requires Inv(s) && WakeStep(s, s', p, hs)
    ensures Inv(s')
  {
    var t := s.table[p].(handles := hs, asleep := false);
    assert AddsChunks(s, s', p, t) by {
      hide Mapped, Live, Sum;
      assert s.d.reserved[p := t.size] == s.d.reserved;
    }
    AddKeeps(s, s', p, t);
  }

  /** What stays mapped when `p` goes to sleep belongs to another allocation. */
  lemma {:induction false} SleepOwner(s: State, s': State, p: nat, a: nat)
    requires Mapped(s) && SleepStep(s, s', p) && a in s'.d.mapped
    ensures Owned(s', a)
  {
    hide Backed, WellSized, TileKeys, Handles;
    var q :| q in s.table && a in KeysOf(q, s.table[q]);
    assert q != p && s'.table[q] == s.table[q];
  }

  lemma {:induction false} SleepMapped(s: State, s': State, p: nat)
    requires Reserved(s) && Apart(s) && Mapped(s) && SleepStep(s, s', p)
    ensures Mapped(s')
  {
    hide WellSized, Handles, TileKeys, Disjoint, KeysOf;
    var t := s.table[p];
    forall q | q in s'.table
      ensures Backed(s'.d, q, s'.table[q])
    {
      assert Backed(s.d, q, s.table[q]);
      if q != p {
        KeysApart(p, t, q, s.table[q]);
        OthersBacked(s.d, s'.d, q, s.table[q], TileKeys(p, t.sizes, |t.sizes|));
      }
    }
    forall a | a in s'.d.mapped
      ensures Owned(s', a)
    {
      SleepOwner(s, s', p, a);
    }
  }

  lemma {:induction false} SleepLive(s: State, s': State, p: nat)
    requires Apart(s) && Live(s) && SleepStep(s, s', p)
    ensures Live(s')
  {
    hide WellSized, Handles, Disjoint;
    assert HandlesOf(s.table[p]) == Handles(s.table[p].handles, |s.table[p].handles|);
    forall h | h in s'.d.live
      ensures exists q :: q in s'.table && h in HandlesOf(s'.table[q])
    {
      var q :| q in s.table && h in HandlesOf(s.table[q]);
      assert q != p && s'.table[q] == s.table[q];
    }
  }

  lemma {:induction false} SleepApart(s: State, s': State, p: nat)
    requires Apart(s) && SleepStep(s, s', p)
    ensures Apart(s')
  {
    hide Handles, WellSized, Disjoint, WithoutChunks;
    assert forall q :: q in s'.table ==>
             s'.table[q].size == s.table[q].size && HandlesOf(s'.table[q]) <= HandlesOf(s.table[q]);
    hide HandlesOf, SleepStep;
    assert s'.table.Keys == s.table.Keys;
  }

  lemma {:induction false} SleepKeeps(s: State, s': State, p: nat)
    requires Inv(s) && SleepStep(s, s', p)
    ensures Inv(s')
  {
    hide Mapped, Live;
    assert Reserved(s') by {
      hide Apart, Sum, Positive, DistinctHandles;
    }
    assert Apart(s') by {
      SleepApart(s, s', p);
    }
    hide Reserved, Apart, SleepStep;
    SleepMapped(s, s', p);
    SleepLive(s, s', p);
  }

  lemma {:induction false} FreeAsleepMapped(s: State, s': State, p: nat)
    requires Reserved(s) && Mapped(s) && FreeStep(s, s', p) && s.table[p].asleep
    ensures Mapped(s')
  {
    hide Handles, TileKeys, Sum;
    forall q | q in s'.table
      ensures Backed(s'.d, q, s'.table[q])
    {
      assert Backed(s.d, q, s.table[q]);
      OthersBacked(s.d, s'.d, q, s.table[q], {});
    }
    hide Backed, WellSized;
    forall a | a in s'.d.mapped
      ensures Owned(s', a)
    {
      assert Owned(s, a);
      var q :| q in s.table && a in KeysOf(q, s.table[q]);
      assert q in s'.table && s'.table[q] == s.table[q];
    }
  }

  /** Freeing an allocation that is asleep gives up its reservation and nothing else. */
  lemma {:induction false} FreeAsleepKeeps(s: State, s': State, p: nat)
    requires Inv(s) && FreeStep(s, s', p) && s.table[p].asleep
    ensures Inv(s')
  {
    hide WellSized, Handles, Disjoint, TileKeys, ChunkAt;
    assert forall q :: q in s'.table ==> q in s.table && s'.table[q] == s.table[q];
    assert Apart(s') by {
      hide Reserved, Mapped, Live, HandlesOf;
    }
    assert Reserved(s') by {
      hide Mapped, Live, Apart;
    }
    hide Reserved, Apart;
    assert Mapped(s') by {
      FreeAsleepMapped(s, s', p);
    }
    hide Mapped;
    forall h | h in s'.d.live
      ensures exists q :: q in s'.table && h in HandlesOf(s'.table[q])
    {
      var q :| q in s.table && h in HandlesOf(s.table[q]);
      assert q in s'.table && s'.table[q] == s.table[q];
    }
  }

  /** Freeing is going to sleep and then giving up the reservation. */
  lemma {:induction false} FreeKeeps(s: State, s': State, p: nat)
    requires Inv(s) && FreeStep(s, s', p)
    ensures Inv(s')
  {
    hide Inv, Sum, TileKeys, Handles;
    var t := s.table[p];
    if t.asleep {
      FreeAsleepKeeps(s, s', p);
    } else {
      var m := State(WithoutChunks(s.d, p, t.sizes, t.handles), s.table[p := t.(asleep := true)]);
      SleepKeeps(s, m, p);
      assert m.table - {p} == s.table - {p};
      FreeAsleepKeeps(m, s', p);
    }
  }

  /** Over every run of mallocs, sleeps, wakes and frees, in any order and over any allocations, the
      driver holds exactly what the table says. */
  lemma {:induction false} RunKeepsInv(states: seq<State>, i: nat)
    requires Run(states) && i < |states|
    ensures Inv(states[i])
  {
    if i == 0 {
    } else {
      RunKeepsInv(states, i - 1);
      var s, s' := states[i - 1], states[i];
      assert Next(s, s');
      hide Inv, MallocStep, SleepStep, WakeStep, FreeStep;
      if p, t :| MallocStep(s, s', p, t) {
        MallocKeeps(s, s', p, t);
      } else if p :| SleepStep(s, s', p) {
        SleepKeeps(s, s', p);
      } else if p, hs :| WakeStep(s, s', p, hs) {
        WakeKeeps(s, s', p, hs);
      } else {
        var p :| FreeStep(s, s', p);
        FreeKeeps(s, s', p);
      }
    }
  }

  // ---- What the invariant says of bytes -----------------------------------------------------

  /** What the invariant says of one allocation. */
  lemma {:induction false} InvAt(s: State, p: nat)
    requires Inv(s) && p in s.table
    ensures p in s.d.reserved && s.d.reserved[p] == s.table[p].size && WellSized(s.table[p])
    ensures Backed(s.d, p, s.table[p]) && HandlesOf(s.table[p]) <= s.d.live
  {
    hide WellSized, Backed, HandlesOf, Owned, Apart;
  }

  /** What the invariant says of two allocations. */
  lemma {:induction false} InvApart(s: State, p: nat, q: nat)
    requires Inv(s) && p in s.table && q in s.table && p != q
    ensures Disjoint(p, s.table[p].size, q, s.table[q].size) && HandlesOf(s.table[p]) !! HandlesOf(s.table[q])
  {
    hide Reserved, Mapped, Live, HandlesOf, Disjoint;
  }

  lemma {:induction false} Owner(s: State, a: nat) returns (p: nat)
    requires Inv(s) && a in s.d.mapped
    ensures p in s.table && a in KeysOf(p, s.table[p])
  {
    hide Backed, Reserved, Live, Apart, KeysOf;
    assert Owned(s, a);
    p :| p in s.table && a in KeysOf(p, s.table[p]);
  }

  lemma {:induction false} KeyAt(p: nat, t: Allocation, a: nat) returns (k: nat)
    requires a in KeysOf(p, t)
    ensures !t.asleep && k < |t.sizes| && a == p + Sum(t.sizes, k)
  {
    hide Sum;
    k :| 0 <= k < |t.sizes| && a == p + Sum(t.sizes, k);
  }

  lemma {:induction false} BackedAt(d: Driver, p: nat, t: Allocation, k: nat)
    requires Backed(d, p, t) && !t.asleep && k < |t.sizes|
    ensures |t.sizes| == |t.handles| && ChunkAt(d, p, t, k)
  {
  }

  /** The allocation that a mapped chunk belongs to, and its place there. */
  lemma {:induction false} ChunkOwner(s: State, a: nat) returns (p: nat, k: nat)
    requires Inv(s) && a in s.d.mapped
    ensures p in s.table && !s.table[p].asleep && k < |s.table[p].sizes| == |s.table[p].handles|
    ensures a == p + Sum(s.table[p].sizes, k) && ChunkAt(s.d, p, s.table[p], k)
  {
    hide *;
    p := Owner(s, a);
    k := KeyAt(p, s.table[p], a);
    InvAt(s, p);
    BackedAt(s.d, p, s.table[p], k);
  }

  /** A mapped chunk lies in the range of the allocation it belongs to. */
  lemma {:induction false} ChunkInside(s: State, a: nat) returns (p: nat)
    requires Inv(s) && a in s.d.mapped
    ensures p in s.table && !s.table[p].asleep
    ensures p <= a && a + s.d.mapped[a].size <= p + s.table[p].size && s.d.mapped[a].size > 0
  {
    hide Inv;
    var k;
    p, k := ChunkOwner(s, a);
    InvAt(s, p);
    SumIncreases(s.table[p].sizes, k, |s.table[p].sizes|);
  }

  /** Every byte of an allocation that is awake lies in exactly one mapped chunk, and that chunk is
      backed by a live handle of this allocation. */
  lemma {:induction false} AwakeByte(s: State, p: nat, byte: nat) returns (a: nat)
    requires Inv(s) && p in s.table && !s.table[p].asleep && p <= byte < p + s.table[p].size
    ensures Holds(s.d, a, byte) && forall b :: Holds(s.d, b, byte) ==> b == a
    ensures s.d.mapped[a].handle in s.d.live && s.d.mapped[a].handle in HandlesOf(s.table[p])
  {
    hide Inv, Sum;
    var t := s.table[p];
    InvAt(s, p);
    var k := TilesCover(p, t.sizes, |t.sizes|, byte);
    a := p + Sum(t.sizes, k);
    assert ChunkAt(s.d, p, t, k) && t.handles[k] in HandlesOf(t);
    assert s.d.mapped[a] == Mapping(t.sizes[k], t.handles[k]) && t.handles[k] in s.d.live;
    forall b | Holds(s.d, b, byte)
      ensures b == a
    {
      OnlyChunk(s, p, byte, k, b);
    }
  }

  lemma {:induction false} OnlyChunk(s: State, p: nat, byte: nat, k: nat, b: nat)
    requires Inv(s) && p in s.table && !s.table[p].asleep && p <= byte < p + s.table[p].size
    requires k < |s.table[p].sizes| && Holds(s.d, b, byte)
    requires p + Sum(s.table[p].sizes, k) <= byte < p + Sum(s.table[p].sizes, k) + s.table[p].sizes[k]
    ensures b == p + Sum(s.table[p].sizes, k)
  {
    hide Inv;
    var q, m := ChunkOwner(s, b);
    var t := s.table[q];
    InvAt(s, q);
    SumIncreases(t.sizes, m, |t.sizes|);
    if p != q {
      InvApart(s, p, q);
    } else {
      SumIncreases(t.sizes, if m < k then m else k, if m < k then k else m);
    }
  }

  /** No byte of an allocation that is asleep is mapped, and its range is still reserved. */
  lemma {:induction false} AsleepByte(s: State, p: nat, byte: nat, a: nat)
    requires Inv(s) && p in s.table && s.table[p].asleep && p <= byte < p + s.table[p].size
    ensures !Holds(s.d, a, byte) && p in s.d.reserved && s.d.reserved[p] == s.table[p].size
  {
    hide Inv;
    InvAt(s, p);
    if a in s.d.mapped {
      var q := ChunkInside(s, a);
      InvApart(s, q, p);
    }
  }

  /** A byte outside every allocation is neither reserved nor mapped. */
  lemma {:induction false} OutsideByte(s: State, byte: nat, a: nat)
    requires Inv(s) && forall p :: p in s.table ==> !(p <= byte < p + s.table[p].size)
    ensures !Holds(s.d, a, byte) && (a in s.d.reserved ==> !(a <= byte < a + s.d.reserved[a]))
  {
    hide Mapped, Live, Apart, WellSized;
    if a in s.d.mapped {
      var q := ChunkInside(s, a);
    }
  }

  /** A mapped chunk has a live handle to itself. */
  lemma {:induction false} NoSharedHandle(s: State, a: nat, b: nat)
    requires Inv(s) && a in s.d.mapped && b in s.d.mapped && s.d.mapped[a].handle == s.d.mapped[b].handle
    ensures a == b && s.d.mapped[a].handle in s.d.live
  {
    hide Inv, Sum, Disjoint;
    var p, k := ChunkOwner(s, a);
    var q, m := ChunkOwner(s, b);
    InvAt(s, p);
    InvAt(s, q);
    var t, u := s.table[p], s.table[q];
    assert t.handles[k] in HandlesOf(t) && u.handles[m] in HandlesOf(u);
    if p != q {
      InvApart(s, p, q);
    }
  }
}
