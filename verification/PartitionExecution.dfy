/** What partition signatures mean: running the partitions as closed functions against running
    every node in one scope.  The main result is `PartitionedRunIffScoped`. */
module PartitionExecution {
  import opened Options
  import opened GraphPartition

  /** A kernel maps a node, the storages it reads and a storage it writes to the new contents. */
  type Kernel<!V> = (nat, map<Name, V>, Name) -> V

  function Restrict<V>(s: map<Name, V>, names: set<Name>): map<Name, V> {
    map x | x in names && x in s :: s[x]
  }

  function ReadStores(g: Graph, n: Node): set<Name>
    requires Resolved(g)
  {
    set x | x in n.readDeps && !IsNoneLayout(g, x) :: Real(g, x)
  }

  function WriteStores(g: Graph, n: Node): set<Name>
    requires Resolved(g)
  {
    set x | x in n.outputs && !IsNoneLayout(g, x) :: Real(g, x)
  }

  /** Runs one node: it fails when a storage it reads is not in scope, and drops the buffers it
      frees (constants are never freed). */
  function Exec<V>(g: Graph, f: Kernel<V>, s: map<Name, V>, n: Node): Option<map<Name, V>>
    requires Resolved(g)
  {
    if ReadStores(g, n) <= s.Keys then
      var args := Restrict(s, ReadStores(g, n));
      Some((s + map y | y in WriteStores(g, n) :: f(n.id, args, y)) - (n.lastUsage - g.constants))
    else None
  }

  function RunNodes<V>(g: Graph, f: Kernel<V>, s: map<Name, V>, p: seq<Node>): Option<map<Name, V>>
    requires Resolved(g)
  {
    if p == [] then Some(s)
    else
      var r := RunNodes(g, f, s, p[..|p| - 1]);
      if r.None? then None else Exec(g, f, r.value, p[|p| - 1])
  }

  /** A call of a partition function: it sees its inputs and constants, and the caller sees its
      outputs and loses the inputs that it deallocates. */
  function Call<V>(g: Graph, f: Kernel<V>, consts: map<Name, V>, caller: map<Name, V>, p: seq<Node>, sig: Signature)
    : Option<map<Name, V>>
    requires Resolved(g)
  {
    if !(sig.inputs <= caller.Keys) then None
    else
      var r := RunNodes(g, f, Restrict(caller, sig.inputs) + Restrict(consts, sig.constants), p);
      if r.None? || !(sig.outputs <= r.value.Keys) then None
      else
        var freed := set x | x in sig.deallocation && sig.deallocation[x];
        Some((caller - freed) + Restrict(r.value, sig.outputs))
  }

  /** The caller's scope after the first `i` partitions. */
  function RunPartitions<V>(g: Graph, f: Kernel<V>, consts: map<Name, V>, inputs: map<Name, V>,
                            ps: seq<seq<Node>>, skip: seq<bool>, i: nat): Option<map<Name, V>>
    requires Resolved(g) && i <= |ps| == |skip|
  {
    if i == 0 then Some(inputs)
    else
      var r := RunPartitions(g, f, consts, inputs, ps, skip, i - 1);
      if r.None? then None else Call(g, f, consts, r.value, ps[i - 1], SigAt(g, ps, skip, i - 1))
  }

  /** The nodes of the first `i` partitions, in order. */
  function Prefix(ps: seq<seq<Node>>, i: nat): (ns: seq<Node>)
    requires i <= |ps|
    ensures |ns| == Offset(ps, i)
  {
    if i == 0 then [] else Prefix(ps, i - 1) + ps[i - 1]
  }

  /** All nodes, in order. */
  function Flatten(ps: seq<seq<Node>>): seq<Node> {
    Prefix(ps, |ps|)
  }

  /** The position in the flat node list at which partition `i` begins. */
  function Offset(ps: seq<seq<Node>>, i: nat): nat
    requires i <= |ps|
  {
    if i == 0 then 0 else Offset(ps, i - 1) + |ps[i - 1]|
  }

  // ---- What the scheduler promises about its node list --------------------------------------

  /** A node that outputs `x`, or `|ns|` when there is none. */
  ghost function MadeAt(ns: seq<Node>, x: Name): (a: nat)
    ensures a <= |ns|
    ensures a < |ns| ==> x in ns[a].outputs
  {
    if a: nat :| a < |ns| && x in ns[a].outputs then a else |ns|
  }

  /** `x` is in scope before node `a` unless it was freed. */
  ghost predicate Before(g: Graph, ns: seq<Node>, a: nat, x: Name) {
    x in g.inputs || MadeAt(ns, x) < a
  }

  /** Every buffer is made by one node and is neither an input nor a constant. */
  ghost predicate NamesOk(g: Graph, ns: seq<Node>) {
    && Resolved(g)
    && g.inputs !! g.constants
    && (forall x {:trigger x in g.named} :: x in g.named <==> Before(g, ns, |ns|, x))
    && (forall a, x {:trigger x in ns[a].outputs} :: 0 <= a < |ns| && x in ns[a].outputs ==>
          MadeAt(ns, x) == a && x !in g.inputs && x !in g.constants)
    && (forall x {:trigger x in g.layout} {:trigger x in g.realName} :: x in g.layout || x in g.realName ==>
          MadeAt(ns, x) < |ns|)
  }

  /** A mutation names an earlier storage, and its node reads that storage under some name. */
  ghost predicate MutationsOk(g: Graph, ns: seq<Node>)
    requires Resolved(g)
  {
    && (forall x {:trigger Real(g, x)} :: x in g.realName ==> IsNoneLayout(g, x) == IsNoneLayout(g, Real(g, x)))
    && (forall a, x {:trigger Real(g, x), ns[a]} :: 0 <= a < |ns| && x in ns[a].outputs && x in g.realName ==>
          && Before(g, ns, a, Real(g, x))
          && (!IsNoneLayout(g, x) ==> Real(g, x) in ReadStores(g, ns[a])))
  }

  /** Dependencies and graph outputs are constants or made earlier. */
  ghost predicate DepsOk(g: Graph, ns: seq<Node>) {
    && (forall a, x {:trigger x in ns[a].readDeps} :: 0 <= a < |ns| && x in ns[a].readDeps ==>
          x in g.constants || Before(g, ns, a, x))
    && (forall a, x {:trigger x in ns[a].weakDeps} :: 0 <= a < |ns| && x in ns[a].weakDeps ==>
          x in g.constants || Before(g, ns, a, x))
    && (forall a, x {:trigger x in ns[a].writeDeps} :: 0 <= a < |ns| && x in ns[a].writeDeps ==>
          x in g.constants || Before(g, ns, a + 1, x))
    && (forall x {:trigger x in g.outputs} :: x in g.outputs ==> x in g.constants || Before(g, ns, |ns|, x))
  }

  /** The storages node `n` uses, ordering-only dependencies aside. */
  function Uses(g: Graph, n: Node): set<Name>
    requires Resolved(g)
  {
    (set x | x in n.readDeps + n.writeDeps + n.outputs && !IsNoneLayout(g, x) :: Real(g, x)) + n.lastUsage
  }

  /** `last_usage` holds real names and is a true last use. */
  ghost predicate LastUsesOk(g: Graph, ns: seq<Node>)
    requires Resolved(g)
  {
    && (forall a, s {:trigger s in ns[a].lastUsage} :: 0 <= a < |ns| && s in ns[a].lastUsage ==>
          && s !in g.realName
          && (s in g.named ==> Before(g, ns, a + 1, s)))
    && (forall a, b, s {:trigger s in ns[a].lastUsage, Uses(g, ns[b])} ::
          0 <= a < b < |ns| && s in ns[a].lastUsage ==> s !in Uses(g, ns[b]))
    && (forall a, x {:trigger x in g.outputs, ns[a]} ::
          0 <= a < |ns| && x in g.outputs ==> Real(g, x) !in ns[a].lastUsage)
  }

  ghost predicate Scheduled(g: Graph, ns: seq<Node>) {
    NamesOk(g, ns) && MutationsOk(g, ns) && DepsOk(g, ns) && LastUsesOk(g, ns)
  }

  // ---- When the signatures are well scoped --------------------------------------------------

  /** No partition names, as an ordering-only dependency, a storage freed by an earlier one. */
  predicate NoStaleWeakDep(g: Graph, ps: seq<seq<Node>>)
    requires Resolved(g)
  {
    forall i, j, n, x :: 0 <= i < j < |ps| && n in ps[j] && x in n.weakDeps ==>
      IsNoneLayout(g, x) || x in Outs(ps[j]) || Real(g, x) !in g.named || Real(g, x) !in Frees(ps[i])
  }

  /** No partition frees an unallocated buffer of an earlier one. */
  predicate NoUnallocatedFree(g: Graph, ps: seq<seq<Node>>)
    requires Resolved(g)
  {
    forall j, x :: 0 <= j < |ps| && x in Frees(ps[j]) && x !in Outs(ps[j]) && x in g.named ==>
      !IsNoneLayout(g, x)
  }

  // ---- Flattening ---------------------------------------------------------------------------

  lemma {:induction false} OffsetMonotone(ps: seq<seq<Node>>, i: nat, j: nat)
    requires i <= j <= |ps|
    ensures Offset(ps, i) <= Offset(ps, j)
  {
    if i < j {
      OffsetMonotone(ps, i, j - 1);
    }
  }

  lemma {:induction false} PrefixAt(ps: seq<seq<Node>>, i: nat, k: nat, j: nat)
    requires i < j <= |ps| && k < |ps[i]|
    ensures Offset(ps, i) + k < Offset(ps, j) && Prefix(ps, j)[Offset(ps, i) + k] == ps[i][k]
  {
    if i < j - 1 {
      PrefixAt(ps, i, k, j - 1);
    }
  }

  /** Node `k` of partition `i` in the flat list. */
  lemma {:induction false} FlattenAt(ps: seq<seq<Node>>, i: nat, k: nat)
    requires i < |ps| && k < |ps[i]|
    ensures Offset(ps, i) + k < Offset(ps, i + 1) <= |Flatten(ps)|
    ensures Flatten(ps)[Offset(ps, i) + k] == ps[i][k]
  {
    PrefixAt(ps, i, k, |ps|);
    OffsetMonotone(ps, i + 1, |ps|);
  }

  lemma {:induction false} MemberIndex(ps: seq<seq<Node>>, i: nat, n: Node) returns (a: nat)
    requires i < |ps| && n in ps[i]
    ensures Offset(ps, i) <= a < Offset(ps, i + 1) <= |Flatten(ps)| && Flatten(ps)[a] == n
  {
    var k :| 0 <= k < |ps[i]| && ps[i][k] == n;
    FlattenAt(ps, i, k);
    a := Offset(ps, i) + k;
  }

  lemma {:induction false} SliceMembers(ps: seq<seq<Node>>, i: nat)
    requires i < |ps|
    ensures Offset(ps, i) <= Offset(ps, i + 1) <= |Flatten(ps)|
    ensures forall a :: Offset(ps, i) <= a < Offset(ps, i + 1) ==> Flatten(ps)[a] in ps[i]
  {
    OffsetMonotone(ps, i + 1, |ps|);
    forall a | Offset(ps, i) <= a < Offset(ps, i + 1)
      ensures Flatten(ps)[a] in ps[i]
    {
      FlattenAt(ps, i, a - Offset(ps, i));
    }
  }

  // ---- Runs of nodes ------------------------------------------------------------------------

  lemma {:induction false} RunAppend<V>(g: Graph, f: Kernel<V>, s: map<Name, V>, p: seq<Node>, q: seq<Node>)
    requires Resolved(g)
    ensures RunNodes(g, f, s, p + q) ==
            var r := RunNodes(g, f, s, p);
            if r.None? then None else RunNodes(g, f, r.value, q)
  {
    if q == [] {
      assert p + q == p;
    } else {
      RunAppend(g, f, s, p, q[..|q| - 1]);
      assert (p + q)[..|p + q| - 1] == p + q[..|q| - 1];
    }
  }

  /** A storage that is in scope or written, and not freed, is in scope after the run. */
  lemma {:induction false} Kept<V>(g: Graph, f: Kernel<V>, s: map<Name, V>, p: seq<Node>, x: Name)
    requires Resolved(g)
    requires RunNodes(g, f, s, p).Some?
    requires x in s || exists n :: n in p && x in WriteStores(g, n)
    requires x !in Frees(p) - g.constants
    ensures x in RunNodes(g, f, s, p).value
  {
    if p == [] {
    } else {
      var q, n := p[..|p| - 1], p[|p| - 1];
      assert p == q + [n];
      if x !in WriteStores(g, n) {
        Kept(g, f, s, q, x);
      }
    }
  }

  /** A storage neither written nor freed keeps its contents. */
  lemma {:induction false} Untouched<V>(g: Graph, f: Kernel<V>, s: map<Name, V>, p: seq<Node>, x: Name)
    requires Resolved(g)
    requires RunNodes(g, f, s, p).Some?
    requires x in s && x !in Frees(p) - g.constants
    requires forall n :: n in p ==> x !in WriteStores(g, n)
    ensures x in RunNodes(g, f, s, p).value && RunNodes(g, f, s, p).value[x] == s[x]
  {
    if p == [] {
    } else {
      assert p == p[..|p| - 1] + [p[|p| - 1]];
      Untouched(g, f, s, p[..|p| - 1], x);
    }
  }

  predicate SubStore<V(==)>(s: map<Name, V>, t: map<Name, V>) {
    forall x :: x in s ==> x in t && s[x] == t[x]
  }

  /** A run in a smaller scope that succeeds agrees with the run in the larger one. */
  lemma {:induction false} RunSub<V>(g: Graph, f: Kernel<V>, s: map<Name, V>, t: map<Name, V>, p: seq<Node>)
    requires Resolved(g)
    requires SubStore(s, t)
    requires RunNodes(g, f, s, p).Some?
    ensures RunNodes(g, f, t, p).Some?
    ensures SubStore(RunNodes(g, f, s, p).value, RunNodes(g, f, t, p).value)
  {
    if p == [] {
    } else {
      var q, n := p[..|p| - 1], p[|p| - 1];
      RunSub(g, f, s, t, q);
      var s', t' := RunNodes(g, f, s, q).value, RunNodes(g, f, t, q).value;
      assert Restrict(s', ReadStores(g, n)) == Restrict(t', ReadStores(g, n));
    }
  }

  /** A storage is in scope before node `k`, or written earlier, and not yet freed. */
  predicate InScope<V>(g: Graph, s: map<Name, V>, p: seq<Node>, k: nat, x: Name)
    requires Resolved(g) && k <= |p|
  {
    && (x in s || exists n :: n in p[..k] && x in WriteStores(g, n))
    && x !in Frees(p[..k]) - g.constants
  }

  ghost predicate ReadsInScope<V>(g: Graph, s: map<Name, V>, p: seq<Node>)
    requires Resolved(g)
  {
    forall k, x :: 0 <= k < |p| && x in ReadStores(g, p[k]) ==> InScope(g, s, p, k, x)
  }

  lemma {:induction false} InScopePrefix<V>(g: Graph, s: map<Name, V>, p: seq<Node>, k: nat, x: Name)
    requires Resolved(g) && k < |p| && InScope(g, s, p, k, x)
    ensures InScope(g, s, p[..|p| - 1], k, x)
  {
    assert p[..|p| - 1][..k] == p[..k];
  }

  /** A run succeeds when each node's reads are in scope. */
  lemma {:induction false} RunSucceeds<V>(g: Graph, f: Kernel<V>, s: map<Name, V>, p: seq<Node>)
    requires Resolved(g) && ReadsInScope(g, s, p)
    ensures RunNodes(g, f, s, p).Some?
  {
    hide InScope, Resolved, ReadStores;
    if p == [] {
    } else {
      var q := p[..|p| - 1];
      forall k, x | 0 <= k < |q| && x in ReadStores(g, q[k])
        ensures InScope(g, s, q, k, x)
      {
        assert q[k] == p[k];
        InScopePrefix(g, s, p, k, x);
      }
      RunSucceeds(g, f, s, q);
      forall x | x in ReadStores(g, p[|p| - 1])
        ensures x in RunNodes(g, f, s, q).value
      {
        assert InScope(g, s, p, |p| - 1, x);
        InScopePrefix(g, s, p, |p| - 1, x);
        ScopeKept(g, f, s, q, x);
      }
    }
  }

  lemma {:induction false} ScopeKept<V>(g: Graph, f: Kernel<V>, s: map<Name, V>, p: seq<Node>, x: Name)
    requires Resolved(g) && RunNodes(g, f, s, p).Some? && InScope(g, s, p, |p|, x)
    ensures x in RunNodes(g, f, s, p).value
  {
    assert p[..|p|] == p;
    Kept(g, f, s, p, x);
  }
}
