/** The partition functions compute what the graph computes, exactly when their inputs can be
    in scope. */
module PartitionSoundness {
  import opened Options
  import opened GraphPartition
  import opened PartitionExecution

  /** A name that is unmet is a graph output or an input of a later partition. */
  lemma {:induction false} UnmetOrigin(g: Graph, ps: seq<seq<Node>>, i: nat, y: Name)
    requires Resolved(g) && i <= |ps|
    requires y in Unmet(g, ps, i)
    ensures y in g.outputs || exists j :: i <= j < |ps| && y in InputNames(g, ps[j])
    decreases |ps| - i
  {
    if i < |ps| && y !in InputNames(g, ps[i]) {
      UnmetOrigin(g, ps, i + 1, y);
    }
  }

  lemma {:induction false} BeforeOutside(g: Graph, ps: seq<seq<Node>>, i: nat, a: nat, x: Name)
    requires i < |ps| && a <= Offset(ps, i + 1)
    requires Before(g, Flatten(ps), a, x) && x !in Outs(ps[i])
    ensures Before(g, Flatten(ps), Offset(ps, i), x)
  {
    SliceMembers(ps, i);
  }

  lemma {:induction false} BeforeReal(g: Graph, ns: seq<Node>, a: nat, x: Name)
    requires Resolved(g) && Scheduled(g, ns) && a <= |ns|
    requires Before(g, ns, a, x)
    ensures Before(g, ns, a, Real(g, x))
  {
    hide DepsOk, LastUsesOk;
    if x in g.realName {
      assert Before(g, ns, MadeAt(ns, x), Real(g, x));
    }
  }

  lemma {:induction false} BeforeIsNamed(g: Graph, ns: seq<Node>, a: nat, x: Name)
    requires Resolved(g) && Scheduled(g, ns) && a <= |ns|
    requires Before(g, ns, a, x)
    ensures x in g.named
  {
    hide MutationsOk, DepsOk, LastUsesOk;
  }

  lemma {:induction false} ConstantIsReal(g: Graph, ns: seq<Node>, x: Name)
    requires Resolved(g) && Scheduled(g, ns) && x in g.constants
    ensures Real(g, x) == x && x !in g.named
  {
    hide MutationsOk, DepsOk, LastUsesOk;
  }

  lemma {:induction false} RealAllocated(g: Graph, ns: seq<Node>, x: Name)
    requires Resolved(g) && Scheduled(g, ns) && !IsNoneLayout(g, x)
    ensures !IsNoneLayout(g, Real(g, x))
  {
    hide NamesOk, DepsOk, LastUsesOk;
  }

  /** A dependency from outside its partition is a constant or was made before the partition. */
  lemma {:induction false} DepBefore(g: Graph, ps: seq<seq<Node>>, i: nat, x: Name)
    requires Resolved(g) && Scheduled(g, Flatten(ps)) && i < |ps|
    requires x in Deps(ps[i]) && x !in Outs(ps[i])
    ensures x in g.constants || Before(g, Flatten(ps), Offset(ps, i), x)
  {
    hide NamesOk, MutationsOk, LastUsesOk;
    var n :| n in ps[i] && x in n.readDeps + n.writeDeps + n.weakDeps;
    var a := MemberIndex(ps, i, n);
    OffsetMonotone(ps, i, i + 1);
    if x !in g.constants {
      assert Before(g, Flatten(ps), a + 1, x);
      BeforeOutside(g, ps, i, a + 1, x);
    }
  }

  lemma {:induction false} FreeBefore(g: Graph, ps: seq<seq<Node>>, i: nat, x: Name)
    requires Resolved(g) && Scheduled(g, Flatten(ps)) && i < |ps|
    requires x in Frees(ps[i])
    ensures x !in g.realName
    ensures x in g.named && x !in Outs(ps[i]) ==> Before(g, Flatten(ps), Offset(ps, i), x)
  {
    hide NamesOk, MutationsOk, DepsOk;
    var n :| n in ps[i] && x in n.lastUsage;
    var a := MemberIndex(ps, i, n);
    OffsetMonotone(ps, i, i + 1);
    if x in g.named && x !in Outs(ps[i]) {
      BeforeOutside(g, ps, i, a + 1, x);
    }
  }

  /** The names a partition takes from the graph are storages made before it. */
  lemma {:induction false} InputsBefore(g: Graph, ps: seq<seq<Node>>, i: nat, s: Name)
    requires Resolved(g) && Scheduled(g, Flatten(ps)) && i < |ps|
    requires s in InputNames(g, ps[i])
    ensures s !in g.realName
    ensures s in g.named ==> Before(g, Flatten(ps), Offset(ps, i), s)
  {
    hide Scheduled;
    if x :| x in Deps(ps[i]) && !IsNoneLayout(g, x) && x !in Outs(ps[i]) && s == Real(g, x) {
      DepBefore(g, ps, i, x);
      if x in g.constants {
        ConstantIsReal(g, Flatten(ps), x);
      } else {
        OffsetMonotone(ps, i, |ps|);
        BeforeReal(g, Flatten(ps), Offset(ps, i), x);
      }
    } else {
      FreeBefore(g, ps, i, s);
    }
  }

  /** Nothing an earlier partition frees is an input of a later one. */
  lemma {:induction false} NotFreedEarlier(g: Graph, ps: seq<seq<Node>>, i: nat, j: nat, s: Name)
    requires Resolved(g) && Scheduled(g, Flatten(ps)) && NoStaleWeakDep(g, ps) && i < j < |ps|
    requires s in Inputs(g, ps[j])
    ensures s !in Frees(ps[i])
  {
    hide Scheduled;
    if n :| n in ps[j] && s in Uses(g, n) {
      UsedNotFreedEarlier(g, ps, i, j, n, s);
    } else {
      var x :| x in Deps(ps[j]) && !IsNoneLayout(g, x) && x !in Outs(ps[j]) && s == Real(g, x);
      var n :| n in ps[j] && x in n.readDeps + n.writeDeps + n.weakDeps;
      assert s !in Uses(g, n);
      assert x in n.weakDeps;
    }
  }

  lemma {:induction false} UsedNotFreedEarlier(g: Graph, ps: seq<seq<Node>>, i: nat, j: nat, n: Node, s: Name)
    requires Resolved(g) && Scheduled(g, Flatten(ps)) && i < j < |ps|
    requires n in ps[j] && s in Uses(g, n)
    ensures s !in Frees(ps[i])
  {
    hide NamesOk, MutationsOk, DepsOk;
    var b := MemberIndex(ps, j, n);
    OffsetMonotone(ps, i + 1, j);
    forall m | m in ps[i]
      ensures s !in m.lastUsage
    {
      var a := MemberIndex(ps, i, m);
    }
  }

  lemma {:induction false} OutputNotFreed(g: Graph, ps: seq<seq<Node>>, i: nat, y: Name)
    requires Resolved(g) && Scheduled(g, Flatten(ps)) && i < |ps|
    requires y in g.outputs
    ensures Real(g, y) !in Frees(ps[i])
  {
    hide NamesOk, MutationsOk, DepsOk;
    forall m | m in ps[i]
      ensures Real(g, y) !in m.lastUsage
    {
      var a := MemberIndex(ps, i, m);
    }
  }

  /** No unmet storage has been freed. */
  lemma {:induction false} UnmetNotFreed(g: Graph, ps: seq<seq<Node>>, i: nat, y: Name)
    requires Resolved(g) && Scheduled(g, Flatten(ps)) && NoStaleWeakDep(g, ps) && i < |ps|
    requires y in Unmet(g, ps, i + 1) && Real(g, y) in g.named
    ensures Real(g, y) !in Frees(ps[i])
  {
    hide Scheduled, NoStaleWeakDep;
    UnmetOrigin(g, ps, i + 1, y);
    if y in g.outputs {
      OutputNotFreed(g, ps, i, y);
    } else {
      var j :| i + 1 <= j < |ps| && y in InputNames(g, ps[j]);
      InputsBefore(g, ps, j, y);
      NotFreedEarlier(g, ps, i, j, y);
    }
  }

  /** A storage made before a partition and written inside it is one of its inputs. */
  lemma {:induction false} MutatedIsInput(g: Graph, ps: seq<seq<Node>>, i: nat, a: nat, s: Name)
    requires Resolved(g) && Scheduled(g, Flatten(ps)) && i < |ps|
    requires Offset(ps, i) <= a < Offset(ps, i + 1) && a < |Flatten(ps)|
    requires s in WriteStores(g, Flatten(ps)[a])
    requires Before(g, Flatten(ps), Offset(ps, i), s)
    ensures s in Inputs(g, ps[i])
    decreases a
  {
    hide MutationsOk, DepsOk, LastUsesOk;
    var ns := Flatten(ps);
    SliceMembers(ps, i);
    WrittenIsRead(g, ns, Offset(ps, i), a, s);
    var y :| y in ns[a].readDeps && !IsNoneLayout(g, y) && s == Real(g, y);
    if y in Outs(ps[i]) {
      var b := MadeInside(g, ps, i, a, y);
      assert s in WriteStores(g, ns[b]);
      MutatedIsInput(g, ps, i, b, s);
    } else {
      ReadIsDep(ps[i], ns[a], y);
    }
  }

  lemma {:induction false} ReadIsDep(p: seq<Node>, n: Node, y: Name)
    requires n in p && y in n.readDeps
    ensures y in Deps(p)
  {
    assert y in n.readDeps + n.writeDeps + n.weakDeps;
  }

  /** Writing a storage made earlier is a mutation, which reads it. */
  lemma {:induction false} WrittenIsRead(g: Graph, ns: seq<Node>, c: nat, a: nat, s: Name)
    requires Resolved(g) && Scheduled(g, ns) && c <= a < |ns|
    requires s in WriteStores(g, ns[a]) && Before(g, ns, c, s)
    ensures s in ReadStores(g, ns[a])
  {
    hide DepsOk, LastUsesOk;
    var o :| o in ns[a].outputs && !IsNoneLayout(g, o) && s == Real(g, o);
    assert o in g.realName;
  }

  /** A name read by node `a` and made in its partition was made there by an earlier node. */
  lemma {:induction false} MadeInside(g: Graph, ps: seq<seq<Node>>, i: nat, a: nat, y: Name) returns (b: nat)
    requires Resolved(g) && Scheduled(g, Flatten(ps)) && i < |ps|
    requires Offset(ps, i) <= a < Offset(ps, i + 1) && a < |Flatten(ps)|
    requires y in Flatten(ps)[a].readDeps && y in Outs(ps[i])
    ensures Offset(ps, i) <= b < a && y in Flatten(ps)[b].outputs
  {
    hide MutationsOk, LastUsesOk;
    var ns := Flatten(ps);
    var m :| m in ps[i] && y in m.outputs;
    b := MemberIndex(ps, i, m);
    assert Before(g, ns, a, y);
  }

  // ---- One call -----------------------------------------------------------------------------

  /** The caller only ever holds allocated storages that have been made. */
  ghost predicate CallerHolds<V>(g: Graph, ps: seq<seq<Node>>, i: nat, caller: map<Name, V>)
    requires Resolved(g) && i <= |ps|
  {
    && forall s :: s in caller ==>
         s in g.named && s !in g.realName && !IsNoneLayout(g, s) && Before(g, Flatten(ps), Offset(ps, i), s)
  }

  /** Every unmet storage made so far is held by the caller. */
  ghost predicate CallerReady<V>(g: Graph, ps: seq<seq<Node>>, i: nat, caller: map<Name, V>)
    requires Resolved(g) && i <= |ps|
  {
    forall x :: x in Unmet(g, ps, i) && !IsNoneLayout(g, x) && Before(g, Flatten(ps), Offset(ps, i), x) ==>
      Real(g, x) in caller
  }

  lemma {:induction false} InputAllocated(g: Graph, ps: seq<seq<Node>>, i: nat, s: Name)
    requires Resolved(g) && Scheduled(g, Flatten(ps)) && NoUnallocatedFree(g, ps) && i < |ps|
    requires s in Inputs(g, ps[i])
    ensures !IsNoneLayout(g, s) && s in Unmet(g, ps, i)
  {
    hide NamesOk, DepsOk, LastUsesOk;
    if x :| x in Deps(ps[i]) && !IsNoneLayout(g, x) && x !in Outs(ps[i]) && s == Real(g, x) {
    } else {
      assert s in Frees(ps[i]);
    }
  }

  lemma {:induction false} InputsHeld<V>(g: Graph, ps: seq<seq<Node>>, i: nat, caller: map<Name, V>)
    requires Resolved(g) && Scheduled(g, Flatten(ps)) && NoUnallocatedFree(g, ps) && i < |ps|
    requires CallerHolds(g, ps, i, caller) && CallerReady(g, ps, i, caller)
    ensures Inputs(g, ps[i]) <= caller.Keys
  {
    hide Scheduled;
    forall s | s in Inputs(g, ps[i])
      ensures s in caller
    {
      InputsBefore(g, ps, i, s);
      InputAllocated(g, ps, i, s);
    }
  }

  /** The scope in which a partition function starts. */
  function Local<V>(caller: map<Name, V>, consts: map<Name, V>, sig: Signature): map<Name, V> {
    Restrict(caller, sig.inputs) + Restrict(consts, sig.constants)
  }

  /** A node reads what its partition takes as input, a constant, or what was written before it. */
  lemma {:induction false} ReadOrigin(g: Graph, ps: seq<seq<Node>>, i: nat, k: nat, x: Name)
    requires Resolved(g) && Scheduled(g, Flatten(ps)) && i < |ps| && k < |ps[i]|
    requires x in ReadStores(g, ps[i][k])
    ensures || x in Inputs(g, ps[i])
            || x in InputNames(g, ps[i]) * g.constants
            || exists n :: n in ps[i][..k] && x in WriteStores(g, n)
  {
    hide Scheduled;
    var p := ps[i];
    var y :| y in p[k].readDeps && !IsNoneLayout(g, y) && x == Real(g, y);
    if y in Outs(p) {
      var n := InsideRead(g, ps, i, k, y);
      assert x in WriteStores(g, n);
    } else {
      ReadIsDep(p, p[k], y);
      OutsideDep(g, ps, i, y);
    }
  }

  lemma {:induction false} InsideRead(g: Graph, ps: seq<seq<Node>>, i: nat, k: nat, y: Name) returns (n: Node)
    requires Resolved(g) && Scheduled(g, Flatten(ps)) && i < |ps| && k < |ps[i]|
    requires y in ps[i][k].readDeps && y in Outs(ps[i])
    ensures n in ps[i][..k] && y in n.outputs
  {
    hide Scheduled;
    var p, o := ps[i], Offset(ps, i);
    FlattenAt(ps, i, k);
    var b := MadeInside(g, ps, i, o + k, y);
    FlattenAt(ps, i, b - o);
    n := p[b - o];
    assert n == p[..k][b - o];
  }

  lemma {:induction false} OutsideDep(g: Graph, ps: seq<seq<Node>>, i: nat, y: Name)
    requires Resolved(g) && Scheduled(g, Flatten(ps)) && i < |ps|
    requires y in Deps(ps[i]) && y !in Outs(ps[i]) && !IsNoneLayout(g, y)
    ensures Real(g, y) in Inputs(g, ps[i]) || Real(g, y) in InputNames(g, ps[i]) * g.constants
  {
    hide MutationsOk, DepsOk, LastUsesOk;
    assert Real(g, y) in InputNames(g, ps[i]);
    DepBefore(g, ps, i, y);
    OffsetMonotone(ps, i, |ps|);
    if y !in g.constants {
      BeforeReal(g, Flatten(ps), Offset(ps, i), y);
    }
  }

  lemma {:induction false} ReadNotFreed(g: Graph, ps: seq<seq<Node>>, i: nat, k: nat, x: Name)
    requires Resolved(g) && Scheduled(g, Flatten(ps)) && i < |ps| && k < |ps[i]|
    requires x in ReadStores(g, ps[i][k])
    ensures x !in Frees(ps[i][..k])
  {
    hide NamesOk, MutationsOk, DepsOk;
    var ns, p, o := Flatten(ps), ps[i], Offset(ps, i);
    FlattenAt(ps, i, k);
    assert x in Uses(g, p[k]);
    forall n | n in p[..k]
      ensures x !in n.lastUsage
    {
      var b :| 0 <= b < k && p[b] == n;
      FlattenAt(ps, i, b);
    }
  }

  lemma {:induction false} BodyRuns<V>(g: Graph, f: Kernel<V>, ps: seq<seq<Node>>, skip: seq<bool>, i: nat,
                                       caller: map<Name, V>, consts: map<Name, V>)
    requires Resolved(g) && Scheduled(g, Flatten(ps)) && i < |ps| == |skip|
    requires consts.Keys == g.constants && Inputs(g, ps[i]) <= caller.Keys
    ensures RunNodes(g, f, Local(caller, consts, SigAt(g, ps, skip, i)), ps[i]).Some?
  {
    hide Scheduled;
    forall k, x | 0 <= k < |ps[i]| && x in ReadStores(g, ps[i][k])
      ensures InScope(g, Local(caller, consts, SigAt(g, ps, skip, i)), ps[i], k, x)
    {
      ReadOrigin(g, ps, i, k, x);
      ReadNotFreed(g, ps, i, k, x);
    }
    RunSucceeds(g, f, Local(caller, consts, SigAt(g, ps, skip, i)), ps[i]);
  }

  /** A storage written in a partition has been made by its end. */
  lemma {:induction false} WrittenBefore(g: Graph, ps: seq<seq<Node>>, i: nat, n: Node, y: Name)
    requires Resolved(g) && Scheduled(g, Flatten(ps)) && i < |ps|
    requires n in ps[i] && y in n.outputs
    ensures Real(g, y) in g.named && Before(g, Flatten(ps), Offset(ps, i + 1), Real(g, y))
  {
    hide MutationsOk, DepsOk, LastUsesOk;
    var a := MemberIndex(ps, i, n);
    BeforeReal(g, Flatten(ps), a + 1, y);
  }

  /** What a partition returns is an input it keeps or a storage it writes. */
  lemma {:induction false} ReturnedOrigin(g: Graph, ps: seq<seq<Node>>, skip: seq<bool>, i: nat, s: Name)
    requires Resolved(g) && Scheduled(g, Flatten(ps)) && i < |ps| == |skip|
    requires s in SigAt(g, ps, skip, i).outputs
    ensures s in g.named && !IsNoneLayout(g, s) && s !in g.realName
    ensures || (s in Inputs(g, ps[i]) && s !in Frees(ps[i]))
            || exists n, y :: n in ps[i] && y in n.outputs && y in Unmet(g, ps, i + 1) && Real(g, y) == s
  {
    hide Scheduled;
    var unmet := Unmet(g, ps, i + 1);
    assert s in Returned(g, ps[i], unmet);
    var y :| y in Outs(ps[i]) * unmet + (Inputs(g, ps[i]) - Frees(ps[i])) && s == Real(g, y);
    if y in Inputs(g, ps[i]) - Frees(ps[i]) {
      InputsBefore(g, ps, i, y);
    } else {
      var n :| n in ps[i] && y in n.outputs;
      WrittenBefore(g, ps, i, n, y);
    }
  }

  lemma {:induction false} OutputsInScope<V>(g: Graph, f: Kernel<V>, ps: seq<seq<Node>>, skip: seq<bool>, i: nat,
                                             l: map<Name, V>)
    requires Resolved(g) && Scheduled(g, Flatten(ps)) && NoStaleWeakDep(g, ps) && i < |ps| == |skip|
    requires Inputs(g, ps[i]) <= l.Keys && RunNodes(g, f, l, ps[i]).Some?
    ensures SigAt(g, ps, skip, i).outputs <= RunNodes(g, f, l, ps[i]).value.Keys
  {
    hide Scheduled;
    forall s | s in SigAt(g, ps, skip, i).outputs
      ensures s in RunNodes(g, f, l, ps[i]).value
    {
      ReturnedOrigin(g, ps, skip, i, s);
      if !(s in Inputs(g, ps[i]) && s !in Frees(ps[i])) {
        var n, y :| n in ps[i] && y in n.outputs && y in Unmet(g, ps, i + 1) && Real(g, y) == s;
        WriteOf(g, ps, i, n, y);
        UnmetNotFreed(g, ps, i, y);
      }
      Kept(g, f, l, ps[i], s);
    }
  }

  lemma {:induction false} WriteOf(g: Graph, ps: seq<seq<Node>>, i: nat, n: Node, y: Name)
    requires Resolved(g) && Scheduled(g, Flatten(ps)) && i < |ps|
    requires n in ps[i] && y in n.outputs && !IsNoneLayout(g, Real(g, y))
    ensures Real(g, y) in WriteStores(g, n)
  {
    hide NamesOk, DepsOk, LastUsesOk;
    assert !IsNoneLayout(g, y);
  }

  lemma {:induction false} CallSucceeds<V>(g: Graph, f: Kernel<V>, ps: seq<seq<Node>>, skip: seq<bool>, i: nat,
                                           caller: map<Name, V>, consts: map<Name, V>)
    requires Resolved(g) && Scheduled(g, Flatten(ps)) && NoStaleWeakDep(g, ps) && NoUnallocatedFree(g, ps)
    requires i < |ps| == |skip|
    requires consts.Keys == g.constants
    requires CallerHolds(g, ps, i, caller) && CallerReady(g, ps, i, caller)
    ensures Call(g, f, consts, caller, ps[i], SigAt(g, ps, skip, i)).Some?
  {
    hide Scheduled;
    InputsHeld(g, ps, i, caller);
    BodyRuns(g, f, ps, skip, i, caller, consts);
    OutputsInScope(g, f, ps, skip, i, Local(caller, consts, SigAt(g, ps, skip, i)));
  }

  lemma {:induction false} HoldsNext<V>(g: Graph, f: Kernel<V>, ps: seq<seq<Node>>, skip: seq<bool>, i: nat,
                                        caller: map<Name, V>, consts: map<Name, V>)
    requires Resolved(g) && Scheduled(g, Flatten(ps)) && i < |ps| == |skip|
    requires CallerHolds(g, ps, i, caller)
    requires Call(g, f, consts, caller, ps[i], SigAt(g, ps, skip, i)).Some?
    ensures CallerHolds(g, ps, i + 1, Call(g, f, consts, caller, ps[i], SigAt(g, ps, skip, i)).value)
  {
    hide Scheduled;
    var next := Call(g, f, consts, caller, ps[i], SigAt(g, ps, skip, i)).value;
    OffsetMonotone(ps, i, i + 1);
    forall s | s in next
      ensures s in g.named && s !in g.realName && !IsNoneLayout(g, s)
      ensures Before(g, Flatten(ps), Offset(ps, i + 1), s)
    {
      if s in SigAt(g, ps, skip, i).outputs {
        ReturnedOrigin(g, ps, skip, i, s);
        if n, y :| n in ps[i] && y in n.outputs && Real(g, y) == s {
          WrittenBefore(g, ps, i, n, y);
        } else {
          InputsBefore(g, ps, i, s);
        }
      }
    }
  }

  /** A partition neither frees nor writes a storage made before it that is not an input. */
  lemma {:induction false} NotTouched(g: Graph, ps: seq<seq<Node>>, i: nat, s: Name)
    requires Resolved(g) && Scheduled(g, Flatten(ps)) && i < |ps|
    requires s in g.named && Before(g, Flatten(ps), Offset(ps, i), s) && s !in Inputs(g, ps[i])
    ensures s !in Frees(ps[i])
    ensures forall n :: n in ps[i] ==> s !in WriteStores(g, n)
  {
    hide MutationsOk, DepsOk, LastUsesOk;
    forall n | n in ps[i]
      ensures s !in n.outputs && s !in WriteStores(g, n)
    {
      var a := MemberIndex(ps, i, n);
      if s in WriteStores(g, Flatten(ps)[a]) {
        MutatedIsInput(g, ps, i, a, s);
      }
    }
    assert s !in Outs(ps[i]);
  }

  lemma {:induction false} ConstantNotWritten(g: Graph, ps: seq<seq<Node>>, i: nat, c: Name)
    requires Resolved(g) && Scheduled(g, Flatten(ps)) && i < |ps| && c in g.constants
    ensures forall n :: n in ps[i] ==> c !in WriteStores(g, n)
  {
    hide Scheduled;
    forall n, y | n in ps[i] && y in n.outputs
      ensures Real(g, y) != c
    {
      WrittenBefore(g, ps, i, n, y);
      ConstantNotNamed(g, Flatten(ps), Real(g, y));
    }
  }

  lemma {:induction false} ConstantNotNamed(g: Graph, ns: seq<Node>, x: Name)
    requires Resolved(g) && Scheduled(g, ns) && x in g.named
    ensures x !in g.constants
  {
    hide MutationsOk, DepsOk, LastUsesOk;
  }

  /** A call that succeeds leaves the caller in agreement with the one-scope run. */
  lemma {:induction false} SubNext<V>(g: Graph, f: Kernel<V>, ps: seq<seq<Node>>, skip: seq<bool>, i: nat,
                                      caller: map<Name, V>, consts: map<Name, V>, whole: map<Name, V>)
    requires Resolved(g) && Scheduled(g, Flatten(ps)) && i < |ps| == |skip|
    requires consts.Keys == g.constants && CallerHolds(g, ps, i, caller)
    requires SubStore(caller, whole) && SubStore(consts, whole)
    requires Call(g, f, consts, caller, ps[i], SigAt(g, ps, skip, i)).Some?
    ensures RunNodes(g, f, whole, ps[i]).Some?
    ensures var whole' := RunNodes(g, f, whole, ps[i]).value;
            && SubStore(Call(g, f, consts, caller, ps[i], SigAt(g, ps, skip, i)).value, whole')
            && SubStore(consts, whole')
  {
    hide Scheduled;
    var sig := SigAt(g, ps, skip, i);
    var next := Call(g, f, consts, caller, ps[i], sig).value;
    var local := Local(caller, consts, sig);
    RunSub(g, f, local, whole, ps[i]);
    forall s | s in next
      ensures s in RunNodes(g, f, whole, ps[i]).value && next[s] == RunNodes(g, f, whole, ps[i]).value[s]
    {
      if s !in sig.outputs {
        KeptIsReturned(g, ps, skip, i, s);
        NotTouched(g, ps, i, s);
        Untouched(g, f, whole, ps[i], s);
      }
    }
    forall c | c in consts
      ensures c in RunNodes(g, f, whole, ps[i]).value && consts[c] == RunNodes(g, f, whole, ps[i]).value[c]
    {
      ConstantNotWritten(g, ps, i, c);
      Untouched(g, f, whole, ps[i], c);
    }
  }

  lemma {:induction false} KeptIsReturned(g: Graph, ps: seq<seq<Node>>, skip: seq<bool>, i: nat, s: Name)
    requires Resolved(g) && i < |ps| == |skip|
    requires s !in g.realName && !IsNoneLayout(g, s)
    ensures s in Inputs(g, ps[i]) - Frees(ps[i]) ==> s in SigAt(g, ps, skip, i).outputs
  {
    assert s in Inputs(g, ps[i]) - Frees(ps[i]) ==> Real(g, s) in Returned(g, ps[i], Unmet(g, ps, i + 1));
  }

  lemma {:induction false} ReadyNext<V>(g: Graph, f: Kernel<V>, ps: seq<seq<Node>>, skip: seq<bool>, i: nat,
                                        caller: map<Name, V>, consts: map<Name, V>)
    requires Resolved(g) && Scheduled(g, Flatten(ps)) && NoStaleWeakDep(g, ps) && i < |ps| == |skip|
    requires CallerHolds(g, ps, i, caller) && CallerReady(g, ps, i, caller)
    requires Call(g, f, consts, caller, ps[i], SigAt(g, ps, skip, i)).Some?
    ensures CallerReady(g, ps, i + 1, Call(g, f, consts, caller, ps[i], SigAt(g, ps, skip, i)).value)
  {
    hide Scheduled;
    var sig := SigAt(g, ps, skip, i);
    var next := Call(g, f, consts, caller, ps[i], sig).value;
    var unmet := Unmet(g, ps, i + 1);
    forall x | x in unmet && !IsNoneLayout(g, x) && Before(g, Flatten(ps), Offset(ps, i + 1), x)
      ensures Real(g, x) in next
    {
      OffsetMonotone(ps, i + 1, |ps|);
      BeforeReal(g, Flatten(ps), Offset(ps, i + 1), x);
      BeforeIsNamed(g, Flatten(ps), Offset(ps, i + 1), Real(g, x));
      RealAllocated(g, Flatten(ps), x);
      if x in Outs(ps[i]) {
        assert Real(g, x) in sig.outputs;
      } else {
        BeforeOutside(g, ps, i, Offset(ps, i + 1), x);
        if x in Returned(g, ps[i], unmet) {
          ReturnedIsReal(g, ps, i, unmet, x);
        } else {
          assert x in Unmet(g, ps, i);
          UnmetNotFreed(g, ps, i, x);
        }
      }
    }
  }

  lemma {:induction false} ReturnedIsReal(g: Graph, ps: seq<seq<Node>>, i: nat, unmet: set<Name>, x: Name)
    requires Resolved(g) && i < |ps| && x in Returned(g, ps[i], unmet)
    ensures Real(g, x) == x
  {
  }

  // ---- Whole runs ---------------------------------------------------------------------------

  /** Before partition `i` the caller holds all that is unmet. */
  lemma {:induction false} ReadyAt<V>(g: Graph, f: Kernel<V>, consts: map<Name, V>, inputs: map<Name, V>,
                                      ps: seq<seq<Node>>, skip: seq<bool>, i: nat)
    requires Resolved(g) && Scheduled(g, Flatten(ps)) && i <= |ps| == |skip|
    requires consts.Keys == g.constants && inputs.Keys == g.inputs
    requires NoStaleWeakDep(g, ps) && NoUnallocatedFree(g, ps)
    ensures RunPartitions(g, f, consts, inputs, ps, skip, i).Some?
    ensures var caller := RunPartitions(g, f, consts, inputs, ps, skip, i).value;
            CallerHolds(g, ps, i, caller) && CallerReady(g, ps, i, caller)
  {
    hide Scheduled, Call, SigAt, CallerHolds, CallerReady, NoStaleWeakDep, NoUnallocatedFree, Resolved;
    if i == 0 {
      HoldsFirst(g, ps, inputs);
    } else {
      ReadyAt(g, f, consts, inputs, ps, skip, i - 1);
      var caller := RunPartitions(g, f, consts, inputs, ps, skip, i - 1).value;
      CallSucceeds(g, f, ps, skip, i - 1, caller, consts);
      HoldsNext(g, f, ps, skip, i - 1, caller, consts);
      ReadyNext(g, f, ps, skip, i - 1, caller, consts);
    }
  }

  lemma {:induction false} HoldsFirst<V>(g: Graph, ps: seq<seq<Node>>, inputs: map<Name, V>)
    requires Resolved(g) && Scheduled(g, Flatten(ps)) && inputs.Keys == g.inputs
    ensures CallerHolds(g, ps, 0, inputs) && CallerReady(g, ps, 0, inputs) && g.inputs !! g.constants
  {
    hide MutationsOk, DepsOk, LastUsesOk;
    var ns := Flatten(ps);
    forall s | s in inputs
      ensures s in g.named && s !in g.realName && !IsNoneLayout(g, s)
    {
      assert Before(g, ns, |ns|, s);
    }
  }

  /** However many partitions have run, a caller that got this far agrees with the one-scope run. */
  lemma {:induction false} Agreement<V>(g: Graph, f: Kernel<V>, consts: map<Name, V>, inputs: map<Name, V>,
                                        ps: seq<seq<Node>>, skip: seq<bool>, i: nat)
    requires Resolved(g) && Scheduled(g, Flatten(ps)) && i <= |ps| == |skip|
    requires consts.Keys == g.constants && inputs.Keys == g.inputs
    requires RunPartitions(g, f, consts, inputs, ps, skip, i).Some?
    ensures CallerHolds(g, ps, i, RunPartitions(g, f, consts, inputs, ps, skip, i).value)
    ensures RunNodes(g, f, inputs + consts, Prefix(ps, i)).Some?
    ensures var whole := RunNodes(g, f, inputs + consts, Prefix(ps, i)).value;
            && SubStore(RunPartitions(g, f, consts, inputs, ps, skip, i).value, whole)
            && SubStore(consts, whole)
  {
    hide Scheduled, Call, SigAt, CallerHolds, Resolved;
    if i == 0 {
      HoldsFirst(g, ps, inputs);
    } else {
      Agreement(g, f, consts, inputs, ps, skip, i - 1);
      var caller := RunPartitions(g, f, consts, inputs, ps, skip, i - 1).value;
      var whole := RunNodes(g, f, inputs + consts, Prefix(ps, i - 1)).value;
      HoldsNext(g, f, ps, skip, i - 1, caller, consts);
      SubNext(g, f, ps, skip, i - 1, caller, consts, whole);
      RunAppend(g, f, inputs + consts, Prefix(ps, i - 1), ps[i - 1]);
    }
  }

  /** Before partition `i` the caller agrees with the one-scope run and holds all that is unmet. */
  lemma {:induction false} Simulation<V>(g: Graph, f: Kernel<V>, consts: map<Name, V>, inputs: map<Name, V>,
                                         ps: seq<seq<Node>>, skip: seq<bool>, i: nat)
    requires Resolved(g) && Scheduled(g, Flatten(ps)) && i <= |ps| == |skip|
    requires consts.Keys == g.constants && inputs.Keys == g.inputs
    requires NoStaleWeakDep(g, ps) && NoUnallocatedFree(g, ps)
    ensures RunPartitions(g, f, consts, inputs, ps, skip, i).Some?
    ensures RunNodes(g, f, inputs + consts, Prefix(ps, i)).Some?
    ensures var caller := RunPartitions(g, f, consts, inputs, ps, skip, i).value;
            var whole := RunNodes(g, f, inputs + consts, Prefix(ps, i)).value;
            && CallerHolds(g, ps, i, caller) && CallerReady(g, ps, i, caller)
            && SubStore(caller, whole) && SubStore(consts, whole)
  {
    hide *;
    ReadyAt(g, f, consts, inputs, ps, skip, i);
    Agreement(g, f, consts, inputs, ps, skip, i);
  }

  lemma {:induction false} RunStep<V>(g: Graph, f: Kernel<V>, consts: map<Name, V>, inputs: map<Name, V>,
                                      ps: seq<seq<Node>>, skip: seq<bool>, k: nat)
    requires Resolved(g) && k < |ps| == |skip|
    requires RunPartitions(g, f, consts, inputs, ps, skip, k + 1).Some?
    ensures RunPartitions(g, f, consts, inputs, ps, skip, k).Some?
    ensures var caller := RunPartitions(g, f, consts, inputs, ps, skip, k).value;
            && Call(g, f, consts, caller, ps[k], SigAt(g, ps, skip, k)) ==
               RunPartitions(g, f, consts, inputs, ps, skip, k + 1)
            && Inputs(g, ps[k]) <= caller.Keys
  {
  }

  lemma {:induction false} HoldsAt<V>(g: Graph, f: Kernel<V>, consts: map<Name, V>, inputs: map<Name, V>,
                                      ps: seq<seq<Node>>, skip: seq<bool>, i: nat)
    requires Resolved(g) && Scheduled(g, Flatten(ps)) && i <= |ps| == |skip|
    requires consts.Keys == g.constants && inputs.Keys == g.inputs
    requires RunPartitions(g, f, consts, inputs, ps, skip, i).Some?
    ensures CallerHolds(g, ps, i, RunPartitions(g, f, consts, inputs, ps, skip, i).value)
  {
    hide Scheduled;
    Agreement(g, f, consts, inputs, ps, skip, i);
  }

  /** After a call, the caller holds nothing that the partition freed. */
  lemma {:induction false} CallDropsFrees<V>(g: Graph, f: Kernel<V>, ps: seq<seq<Node>>, skip: seq<bool>, k: nat,
                                             caller: map<Name, V>, consts: map<Name, V>, s: Name)
    requires Resolved(g) && Scheduled(g, Flatten(ps)) && k < |ps| == |skip|
    requires CallerHolds(g, ps, k, caller)
    requires Call(g, f, consts, caller, ps[k], SigAt(g, ps, skip, k)).Some?
    requires s in Call(g, f, consts, caller, ps[k], SigAt(g, ps, skip, k)).value
    ensures s !in Frees(ps[k])
  {
    hide Scheduled;
    var sig := SigAt(g, ps, skip, k);
    if s in sig.outputs {
      ReturnedOrigin(g, ps, skip, k, s);
      ConstantNotNamed(g, Flatten(ps), s);
      LastUsesInside(g, ps, k);
      ResultNotFreed(g, f, Local(caller, consts, sig), ps[k], s);
    } else if s !in Inputs(g, ps[k]) {
      NotTouched(g, ps, k, s);
    }
  }

  /** What the caller holds after a call it held before, or the partition used. */
  lemma {:induction false} CallAdds<V>(g: Graph, f: Kernel<V>, ps: seq<seq<Node>>, skip: seq<bool>, k: nat,
                                       caller: map<Name, V>, consts: map<Name, V>, s: Name)
    requires Resolved(g) && Scheduled(g, Flatten(ps)) && k < |ps| == |skip|
    requires Call(g, f, consts, caller, ps[k], SigAt(g, ps, skip, k)).Some?
    requires s in Call(g, f, consts, caller, ps[k], SigAt(g, ps, skip, k)).value
    ensures s in caller || exists n :: n in ps[k] && s in Uses(g, n)
  {
    hide Scheduled;
    if s !in caller {
      ReturnedOrigin(g, ps, skip, k, s);
      var n, y :| n in ps[k] && y in n.outputs && Real(g, y) == s;
      WriteOf(g, ps, k, n, y);
      assert s in Uses(g, n);
    }
  }

  /** A storage the caller holds has not been freed by any partition that ran. */
  lemma {:induction false} HeldNotFreed<V>(g: Graph, f: Kernel<V>, consts: map<Name, V>, inputs: map<Name, V>,
                                           ps: seq<seq<Node>>, skip: seq<bool>, i: nat, j: nat, s: Name)
    requires Resolved(g) && Scheduled(g, Flatten(ps)) && i < j <= |ps| == |skip|
    requires consts.Keys == g.constants && inputs.Keys == g.inputs
    requires RunPartitions(g, f, consts, inputs, ps, skip, j).Some?
    requires s in RunPartitions(g, f, consts, inputs, ps, skip, j).value
    ensures s !in Frees(ps[i])
  {
    hide Scheduled, Call, SigAt, RunPartitions, Resolved, Uses, Frees;
    var k := j - 1;
    RunStep(g, f, consts, inputs, ps, skip, k);
    var caller := RunPartitions(g, f, consts, inputs, ps, skip, k).value;
    if i == k {
      HoldsAt(g, f, consts, inputs, ps, skip, k);
      CallDropsFrees(g, f, ps, skip, k, caller, consts, s);
    } else {
      CallAdds(g, f, ps, skip, k, caller, consts, s);
      if s in caller {
        HeldNotFreed(g, f, consts, inputs, ps, skip, i, k, s);
      } else {
        var n :| n in ps[k] && s in Uses(g, n);
        UsedNotFreedEarlier(g, ps, i, k, n, s);
      }
    }
  }

  predicate LastUsesWithin(g: Graph, p: seq<Node>)
    requires Resolved(g)
  {
    forall a, b, s :: 0 <= a < b < |p| && s in p[a].lastUsage ==> s !in Uses(g, p[b])
  }

  lemma {:induction false} LastUsesInside(g: Graph, ps: seq<seq<Node>>, i: nat)
    requires Resolved(g) && Scheduled(g, Flatten(ps)) && i < |ps|
    ensures LastUsesWithin(g, ps[i])
  {
    hide NamesOk, MutationsOk, DepsOk;
    forall a, b, s | 0 <= a < b < |ps[i]| && s in ps[i][a].lastUsage
      ensures s !in Uses(g, ps[i][b])
    {
      FlattenAt(ps, i, a);
      FlattenAt(ps, i, b);
    }
  }

  lemma {:induction false} WritesAreUses(g: Graph, n: Node, s: Name)
    requires Resolved(g) && s in WriteStores(g, n)
    ensures s in Uses(g, n)
  {
  }

  lemma {:induction false} ResultNotFreed<V>(g: Graph, f: Kernel<V>, l: map<Name, V>, p: seq<Node>, s: Name)
    requires Resolved(g) && LastUsesWithin(g, p) && s !in g.constants
    requires RunNodes(g, f, l, p).Some? && s in RunNodes(g, f, l, p).value
    ensures s !in Frees(p)
  {
    hide Uses, Resolved;
    if p == [] {
    } else {
      var q, n := p[..|p| - 1], p[|p| - 1];
      assert p == q + [n];
      assert LastUsesWithin(g, q);
      assert s !in n.lastUsage;
      if s in WriteStores(g, n) {
        WritesAreUses(g, n, s);
        assert forall a :: 0 <= a < |q| ==> q[a] == p[a] && s !in q[a].lastUsage;
      } else {
        ResultNotFreed(g, f, l, q, s);
      }
    }
  }

  lemma {:induction false} InputsScoped<V>(g: Graph, f: Kernel<V>, consts: map<Name, V>, inputs: map<Name, V>,
                                           ps: seq<seq<Node>>, skip: seq<bool>, j: nat, x: Name)
    requires Resolved(g) && Scheduled(g, Flatten(ps)) && j < |ps| == |skip|
    requires consts.Keys == g.constants && inputs.Keys == g.inputs
    requires RunPartitions(g, f, consts, inputs, ps, skip, |ps|).Some?
    requires x in Inputs(g, ps[j])
    ensures !IsNoneLayout(g, x)
    ensures forall i :: 0 <= i < j ==> x !in Frees(ps[i])
  {
    hide Scheduled, Call, SigAt, RunPartitions, Resolved, Frees;
    PrefixRuns(g, f, consts, inputs, ps, skip, j + 1, |ps|);
    RunStep(g, f, consts, inputs, ps, skip, j);
    HoldsAt(g, f, consts, inputs, ps, skip, j);
    forall i | 0 <= i < j
      ensures x !in Frees(ps[i])
    {
      HeldNotFreed(g, f, consts, inputs, ps, skip, i, j, x);
    }
  }

  /** A complete run shows that the signatures are well scoped. */
  lemma {:induction false} RunIsScoped<V>(g: Graph, f: Kernel<V>, consts: map<Name, V>, inputs: map<Name, V>,
                                          ps: seq<seq<Node>>, skip: seq<bool>)
    requires Resolved(g) && Scheduled(g, Flatten(ps)) && |ps| == |skip|
    requires consts.Keys == g.constants && inputs.Keys == g.inputs
    requires RunPartitions(g, f, consts, inputs, ps, skip, |ps|).Some?
    ensures NoStaleWeakDep(g, ps) && NoUnallocatedFree(g, ps)
  {
    hide Scheduled;
    forall j, x | 0 <= j < |ps| && x in Frees(ps[j]) && x !in Outs(ps[j]) && x in g.named
      ensures !IsNoneLayout(g, x)
    {
      InputsScoped(g, f, consts, inputs, ps, skip, j, x);
    }
    forall i, j, n, x | 0 <= i < j < |ps| && n in ps[j] && x in n.weakDeps
      ensures IsNoneLayout(g, x) || x in Outs(ps[j]) || Real(g, x) !in g.named || Real(g, x) !in Frees(ps[i])
    {
      if !IsNoneLayout(g, x) && x !in Outs(ps[j]) && Real(g, x) in g.named {
        assert x in n.readDeps + n.writeDeps + n.weakDeps;
        assert x in Deps(ps[j]);
        InputsScoped(g, f, consts, inputs, ps, skip, j, Real(g, x));
      }
    }
  }

  lemma {:induction false} PrefixRuns<V>(g: Graph, f: Kernel<V>, consts: map<Name, V>, inputs: map<Name, V>,
                                         ps: seq<seq<Node>>, skip: seq<bool>, i: nat, j: nat)
    requires Resolved(g) && i <= j <= |ps| == |skip|
    requires RunPartitions(g, f, consts, inputs, ps, skip, j).Some?
    ensures RunPartitions(g, f, consts, inputs, ps, skip, i).Some?
    decreases j - i
  {
    hide Call, SigAt, Resolved;
    if i < j {
      PrefixRuns(g, f, consts, inputs, ps, skip, i, j - 1);
    }
  }

  /** A caller that is ready and agrees with the one-scope run has every graph output right. */
  lemma {:induction false} GraphOutputsAgree<V>(g: Graph, ps: seq<seq<Node>>, caller: map<Name, V>,
                                                consts: map<Name, V>, whole: map<Name, V>, x: Name)
    requires Resolved(g) && Scheduled(g, Flatten(ps)) && consts.Keys == g.constants
    requires CallerHolds(g, ps, |ps|, caller) && CallerReady(g, ps, |ps|, caller)
    requires SubStore(caller, whole) && SubStore(consts, whole)
    requires x in g.outputs && !IsNoneLayout(g, x)
    ensures Real(g, x) in caller + consts && Real(g, x) in whole && (caller + consts)[Real(g, x)] == whole[Real(g, x)]
  {
    hide Scheduled;
    OutputBeforeEnd(g, ps, x);
    if x in g.constants {
      ConstantIsReal(g, Flatten(ps), x);
    }
    assert x in Unmet(g, ps, |ps|);
  }

  lemma {:induction false} OutputBeforeEnd(g: Graph, ps: seq<seq<Node>>, x: Name)
    requires Resolved(g) && Scheduled(g, Flatten(ps)) && x in g.outputs
    ensures x in g.constants || Before(g, Flatten(ps), Offset(ps, |ps|), x)
  {
    hide NamesOk, MutationsOk, LastUsesOk;
  }

  /** The value of every graph output after all partitions ran. */
  ghost predicate OutputsAgree<V>(g: Graph, final: map<Name, V>, whole: Option<map<Name, V>>)
    requires Resolved(g)
  {
    && whole.Some?
    && forall x :: x in g.outputs && !IsNoneLayout(g, x) ==>
         Real(g, x) in final && Real(g, x) in whole.value && final[Real(g, x)] == whole.value[Real(g, x)]
  }

  lemma {:induction false} ScopedRunAgrees<V>(g: Graph, f: Kernel<V>, consts: map<Name, V>, inputs: map<Name, V>,
                                              ps: seq<seq<Node>>, skip: seq<bool>)
    requires Resolved(g) && Scheduled(g, Flatten(ps)) && |ps| == |skip|
    requires consts.Keys == g.constants && inputs.Keys == g.inputs
    requires NoStaleWeakDep(g, ps) && NoUnallocatedFree(g, ps)
    ensures RunPartitions(g, f, consts, inputs, ps, skip, |ps|).Some?
    ensures OutputsAgree(g, RunPartitions(g, f, consts, inputs, ps, skip, |ps|).value + consts,
                         RunNodes(g, f, inputs + consts, Flatten(ps)))
  {
    hide Scheduled, Call, SigAt, RunPartitions, RunNodes, CallerHolds, CallerReady, NoStaleWeakDep, NoUnallocatedFree;
    Simulation(g, f, consts, inputs, ps, skip, |ps|);
    var caller := RunPartitions(g, f, consts, inputs, ps, skip, |ps|).value;
    var whole := RunNodes(g, f, inputs + consts, Flatten(ps)).value;
    forall x | x in g.outputs && !IsNoneLayout(g, x)
      ensures Real(g, x) in caller + consts && Real(g, x) in whole && (caller + consts)[Real(g, x)] == whole[Real(g, x)]
    {
      GraphOutputsAgree(g, ps, caller, consts, whole, x);
    }
  }

  /** The main result.  For every graph that is scheduled as the scheduler promises, the partition
      functions run to the end exactly when no partition waits on a storage freed by an earlier one
      and none frees an unallocated buffer of another; and then every graph output has the value
      that running all nodes in one scope gives it. */
  lemma {:induction false} PartitionedRunIffScoped<V>(g: Graph, f: Kernel<V>, consts: map<Name, V>,
                                                      inputs: map<Name, V>, ps: seq<seq<Node>>, skip: seq<bool>)
    requires Resolved(g) && Scheduled(g, Flatten(ps)) && |ps| == |skip|
    requires consts.Keys == g.constants && inputs.Keys == g.inputs
    ensures RunPartitions(g, f, consts, inputs, ps, skip, |ps|).Some? <==>
            NoStaleWeakDep(g, ps) && NoUnallocatedFree(g, ps)
    ensures RunPartitions(g, f, consts, inputs, ps, skip, |ps|).Some? ==>
              OutputsAgree(g, RunPartitions(g, f, consts, inputs, ps, skip, |ps|).value + consts,
                           RunNodes(g, f, inputs + consts, Flatten(ps)))
  {
    hide Scheduled;
    if RunPartitions(g, f, consts, inputs, ps, skip, |ps|).Some? {
      RunIsScoped(g, f, consts, inputs, ps, skip);
      ScopedRunAgrees(g, f, consts, inputs, ps, skip);
    }
    if NoStaleWeakDep(g, ps) && NoUnallocatedFree(g, ps) {
      ScopedRunAgrees(g, f, consts, inputs, ps, skip);
    }
  }

  /** No `KeyError`: every name a partition returns has a node. */
  lemma {:induction false} LookupsNeverFail(g: Graph, ps: seq<seq<Node>>, skip: seq<bool>, i: nat)
    requires Resolved(g) && Scheduled(g, Flatten(ps)) && i < |ps| == |skip|
    ensures LookupsSucceed(g, ps, skip, i)
  {
    hide Scheduled;
    forall s | s in SigAt(g, ps, skip, i).outputs
      ensures s in g.named
    {
      ReturnedOrigin(g, ps, skip, i, s);
    }
  }

  /** No buffer that a partition deallocates is an input or an output of a later one. */
  lemma {:induction false} DeallocatedNotReused(g: Graph, ps: seq<seq<Node>>, skip: seq<bool>, i: nat, j: nat, s: Name)
    requires Resolved(g) && Scheduled(g, Flatten(ps)) && NoStaleWeakDep(g, ps) && i < j < |ps| == |skip|
    requires s in SigAt(g, ps, skip, i).deallocation && SigAt(g, ps, skip, i).deallocation[s]
    ensures s !in SigAt(g, ps, skip, j).inputs && s !in SigAt(g, ps, skip, j).outputs
  {
    hide Scheduled, NoStaleWeakDep;
    forall x | x in SigAt(g, ps, skip, j).inputs + SigAt(g, ps, skip, j).outputs
      ensures x !in Frees(ps[i])
    {
      if x in Inputs(g, ps[j]) {
        NotFreedEarlier(g, ps, i, j, x);
      } else {
        ReturnedOrigin(g, ps, skip, j, x);
        var n, y :| n in ps[j] && y in n.outputs && Real(g, y) == x;
        WriteOf(g, ps, j, n, y);
        assert x in Uses(g, n);
        UsedNotFreedEarlier(g, ps, i, j, n, x);
      }
    }
  }
}

/** The two ways in which signatures of a well scheduled graph are not well scoped. */
module PartitionCounterexamples {
  import opened Options
  import opened GraphPartition
  import opened PartitionExecution
  import opened PartitionSoundness

  function Work(id: nat, outputs: set<Name>, readDeps: set<Name>, weakDeps: set<Name>, lastUsage: set<Name>): Node {
    Node(id, outputs, readDeps, {}, weakDeps, lastUsage)
  }

  lemma {:induction false} MadeOnlyAt(ns: seq<Node>, x: Name, a: nat)
    requires a < |ns| && x in ns[a].outputs
    requires forall b :: 0 <= b < |ns| && b != a ==> x !in ns[b].outputs
    ensures MadeAt(ns, x) == a
  {
  }

  const A := "a"
  const B := "b"
  const C := "c"

  lemma {:induction false} Distinct()
    ensures A != B && A != C && B != C
  {
    assert A[0] == 'a' && B[0] == 'b' && C[0] == 'c';
  }

  lemma {:induction false} FlattenTwo(a: Node, b: Node)
    ensures Flatten([[a], [b]]) == [a, b]
  {
    assert Prefix([[a], [b]], 1) == [a];
  }

  lemma {:induction false} FlattenThree(a: Node, b: Node, c: Node)
    ensures Flatten([[a], [b], [c]]) == [a, b, c]
  {
    assert Prefix([[a], [b], [c]], 1) == [a];
    assert Prefix([[a], [b], [c]], 2) == [a, b];
  }

  const STALE := Graph(map[], map[], {}, {}, {C}, {A, B, C})
  const MAKE_A := Work(0, {A}, {}, {}, {})
  const MAKE_B := Work(1, {B}, {A}, {}, {A})
  const MAKE_C := Work(2, {C}, {B}, {A}, {B})

  lemma {:induction false} StaleScheduled()
    ensures Scheduled(STALE, [MAKE_A, MAKE_B, MAKE_C])
  {
    var ns := [MAKE_A, MAKE_B, MAKE_C];
    Distinct();
    MadeOnlyAt(ns, A, 0);
    MadeOnlyAt(ns, B, 1);
    MadeOnlyAt(ns, C, 2);
  }

  lemma {:induction false} StaleNotScoped()
    ensures !NoStaleWeakDep(STALE, [[MAKE_A], [MAKE_B], [MAKE_C]])
  {
    var ps := [[MAKE_A], [MAKE_B], [MAKE_C]];
    Distinct();
    assert MAKE_B in ps[1] && A in Frees(ps[1]);
    assert MAKE_C in ps[2] && A in MAKE_C.weakDeps;
    assert A !in Outs(ps[2]) && Real(STALE, A) == A;
  }

  /** `a` is freed by the second partition and an ordering-only dependency of the third, which
      therefore asks for it as an input. */
  lemma {:induction false} StaleWeakDepFails<V>(f: Kernel<V>)
    ensures var ps := [[MAKE_A], [MAKE_B], [MAKE_C]];
            && Scheduled(STALE, Flatten(ps))
            && RunPartitions(STALE, f, map[], map[], ps, [false, false, false], 3).None?
  {
    hide Scheduled, NoStaleWeakDep, NoUnallocatedFree, RunPartitions, OutputsAgree;
    FlattenThree(MAKE_A, MAKE_B, MAKE_C);
    StaleScheduled();
    StaleNotScoped();
    PartitionedRunIffScoped(STALE, f, map[], map[], [[MAKE_A], [MAKE_B], [MAKE_C]], [false, false, false]);
  }

  const UNALLOCATED := Graph(map[A := NoLayout], map[], {}, {}, {B}, {A, B})

  lemma {:induction false} UnallocatedScheduled()
    ensures Scheduled(UNALLOCATED, [MAKE_A, MAKE_B])
  {
    var ns := [MAKE_A, MAKE_B];
    Distinct();
    MadeOnlyAt(ns, A, 0);
    MadeOnlyAt(ns, B, 1);
  }

  lemma {:induction false} UnallocatedNotScoped()
    ensures !NoUnallocatedFree(UNALLOCATED, [[MAKE_A], [MAKE_B]])
  {
    var ps := [[MAKE_A], [MAKE_B]];
    Distinct();
    assert MAKE_B in ps[1] && A in Frees(ps[1]) && A !in Outs(ps[1]);
  }

  /** `a` has no layout, so the first partition does not return it, but the second frees it and
      therefore asks for it as an input. */
  lemma {:induction false} UnallocatedFreeFails<V>(f: Kernel<V>)
    ensures var ps := [[MAKE_A], [MAKE_B]];
            && Scheduled(UNALLOCATED, Flatten(ps))
            && RunPartitions(UNALLOCATED, f, map[], map[], ps, [false, false], 2).None?
  {
    hide Scheduled, NoStaleWeakDep, NoUnallocatedFree, RunPartitions, OutputsAgree;
    FlattenTwo(MAKE_A, MAKE_B);
    UnallocatedScheduled();
    UnallocatedNotScoped();
    PartitionedRunIffScoped(UNALLOCATED, f, map[], map[], [[MAKE_A], [MAKE_B]], [false, false]);
  }
}
