/** The ROCm virtual-memory driver as seen by the sleep-mode allocator (csrc/cumem_allocator.cpp):
    reserved address ranges, live physical handles and mappings of handles into ranges. */
module CumemDriver {

  /** One chunk of a range, backed by a handle. */
  datatype Mapping = Mapping(size: nat, handle: nat)

  datatype Driver = Driver(reserved: map<nat, nat>, live: set<nat>, mapped: map<nat, Mapping>)

  predicate Disjoint(a: nat, sizeA: nat, b: nat, sizeB: nat) {
    a + sizeA <= b || b + sizeB <= a
  }

  /** A range that overlaps no reservation. */
  predicate CanReserve(d: Driver, addr: nat, size: nat) {
    forall r :: r in d.reserved ==> Disjoint(addr, size, r, d.reserved[r])
  }

  /** A range in which nothing is mapped. */
  predicate RangeFree(d: Driver, addr: nat, size: nat) {
    forall a :: a in d.mapped ==> Disjoint(addr, size, a, d.mapped[a].size)
  }

  /** A range inside a reservation that overlaps no mapping. */
  predicate CanMap(d: Driver, addr: nat, size: nat) {
    && (exists r :: r in d.reserved && r <= addr && addr + size <= r + d.reserved[r])
    && RangeFree(d, addr, size)
  }

  /** The chunk mapped at `a` holds a byte. */
  predicate Holds(d: Driver, a: nat, byte: nat) {
    a in d.mapped && a <= byte < a + d.mapped[a].size
  }

  predicate ByteMapped(d: Driver, byte: nat) {
    exists a :: a in d.mapped && Holds(d, a, byte)
  }

  /** A range that is mapped throughout. */
  predicate Covered(d: Driver, addr: nat, size: nat) {
    forall byte :: addr <= byte < addr + size ==> ByteMapped(d, byte)
  }

  /** A range is reserved. */
  function WithRange(d: Driver, addr: nat, size: nat): (r: Driver)
    ensures r.live == d.live
  {
    d.(reserved := d.reserved[addr := size])
  }

  /** A reservation is given up. */
  function WithoutRange(d: Driver, addr: nat): (r: Driver)
    ensures r.live == d.live
  {
    d.(reserved := d.reserved - {addr})
  }

  lemma {:induction false} FreeThenReserve(d: Driver, addr: nat, size: nat)
    requires addr in d.reserved && d.reserved[addr] == size
    ensures WithRange(WithoutRange(d, addr), addr, size) == d
  {
    assert (d.reserved - {addr})[addr := size] == d.reserved;
  }

  lemma {:induction false} ReserveThenFree(d: Driver, addr: nat, size: nat)
    requires addr !in d.reserved
    ensures WithoutRange(WithRange(d, addr, size), addr) == d
    ensures addr in WithRange(d, addr, size).reserved && WithRange(d, addr, size).reserved[addr] == size
  {
    assert d.reserved[addr := size] - {addr} == d.reserved;
  }

  /** What the driver keeps: ranges are not empty, and what is mapped is not empty and lies in a reservation. */
  predicate DriverOk(d: Driver) {
    && (forall r :: r in d.reserved ==> d.reserved[r] > 0)
    && (forall a :: a in d.mapped ==> d.mapped[a].size > 0)
    && (forall a :: a in d.mapped ==>
          exists r :: r in d.reserved && r <= a && a + d.mapped[a].size <= r + d.reserved[r])
  }

  lemma {:induction false} MapsElsewhere(d: Driver, addr: nat, size: nat)
    requires CanMap(d, addr, size) && size > 0
    ensures forall a :: a in d.mapped && d.mapped[a].size > 0 ==> a != addr
  {
  }

  // ---- Chunks in a range --------------------------------------------------------------------

  function Sum(sizes: seq<nat>, i: nat): nat
    requires i <= |sizes|
  {
    if i == 0 then 0 else Sum(sizes, i - 1) + sizes[i - 1]
  }

  predicate Positive(sizes: seq<nat>) {
    forall i :: 0 <= i < |sizes| ==> sizes[i] > 0
  }

  lemma {:induction false} SumIncreases(sizes: seq<nat>, i: nat, j: nat)
    requires Positive(sizes) && i <= j <= |sizes|
    ensures Sum(sizes, i) <= Sum(sizes, j)
    ensures i < j ==> Sum(sizes, i) + sizes[i] <= Sum(sizes, j)
  {
    if i < j - 1 {
      SumIncreases(sizes, i, j - 1);
    }
  }

  /** The mappings of the first `i` chunks, one after the other from `base` on. */
  function Tiles(base: nat, sizes: seq<nat>, handles: seq<nat>, i: nat): map<nat, Mapping>
    requires i <= |sizes| == |handles|
  {
    if i == 0 then map[]
    else Tiles(base, sizes, handles, i - 1)[base + Sum(sizes, i - 1) := Mapping(sizes[i - 1], handles[i - 1])]
  }

  /** The addresses of the first `i` chunks. */
  function TileKeys(base: nat, sizes: seq<nat>, i: nat): set<nat>
    requires i <= |sizes|
  {
    set k | 0 <= k < i :: base + Sum(sizes, k)
  }

  function Handles(handles: seq<nat>, i: nat): set<nat>
    requires i <= |handles|
  {
    set k | 0 <= k < i :: handles[k]
  }

  lemma {:induction false} HandlesNext(handles: seq<nat>, h: nat)
    ensures Handles(handles + [h], |handles| + 1) == Handles(handles, |handles|) + {h}
  {
    var all := handles + [h];
    assert forall k :: 0 <= k < |handles| ==> all[k] == handles[k];
    assert forall x :: x in Handles(handles, |handles|) ==> x in Handles(all, |all|) by {
      forall x | x in Handles(handles, |handles|)
        ensures x in Handles(all, |all|)
      {
        var k :| 0 <= k < |handles| && handles[k] == x;
        assert all[k] == x;
      }
    }
    assert all[|handles|] == h;
  }

  predicate DistinctHandles(handles: seq<nat>) {
    forall i, j :: 0 <= i < j < |handles| ==> handles[i] != handles[j]
  }

  lemma {:induction false} TilesNone(base: nat, sizes: seq<nat>, handles: seq<nat>)
    requires |sizes| == |handles|
    ensures Tiles(base, sizes, handles, 0) == map[] && TileKeys(base, sizes, 0) == {}
  {
  }

  lemma {:induction false} TilesAt(base: nat, sizes: seq<nat>, handles: seq<nat>, i: nat, k: nat)
    requires Positive(sizes) && k < i <= |sizes| == |handles|
    ensures base + Sum(sizes, k) in Tiles(base, sizes, handles, i)
    ensures Tiles(base, sizes, handles, i)[base + Sum(sizes, k)] == Mapping(sizes[k], handles[k])
  {
    if k < i - 1 {
      TilesAt(base, sizes, handles, i - 1, k);
      SumIncreases(sizes, k, i - 1);
    }
  }

  lemma {:induction false} TilesKeys(base: nat, sizes: seq<nat>, handles: seq<nat>, i: nat)
    requires i <= |sizes| == |handles|
    ensures Tiles(base, sizes, handles, i).Keys == TileKeys(base, sizes, i)
  {
    if i == 0 {
    } else {
      TilesKeys(base, sizes, handles, i - 1);
      assert TileKeys(base, sizes, i) == TileKeys(base, sizes, i - 1) + {base + Sum(sizes, i - 1)};
    }
  }

  /** Every byte of a tiled range lies in exactly one chunk. */
  lemma {:induction false} TilesCover(base: nat, sizes: seq<nat>, i: nat, byte: nat) returns (k: nat)
    requires Positive(sizes) && i <= |sizes| && base <= byte < base + Sum(sizes, i)
    ensures k < i && base + Sum(sizes, k) <= byte < base + Sum(sizes, k) + sizes[k]
    ensures forall m :: 0 <= m < i && base + Sum(sizes, m) <= byte < base + Sum(sizes, m) + sizes[m] ==> m == k
  {
    if byte >= base + Sum(sizes, i - 1) {
      k := i - 1;
    } else {
      k := TilesCover(base, sizes, i - 1, byte);
    }
    forall m | 0 <= m < i && m != k
      ensures !(base + Sum(sizes, m) <= byte < base + Sum(sizes, m) + sizes[m])
    {
      SumIncreases(sizes, if m < k then m else k, if m < k then k else m);
    }
  }
}
