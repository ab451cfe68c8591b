/** What the fields of a partition's signature are, said of the nodes of the graph (vllm/env_override.py). */
module PartitionSignatures {
  import opened GraphPartition
  import opened PartitionExecution
  import opened PartitionSoundness

  predicate Makes(p: seq<Node>, x: Name) {
    exists n :: n in p && x in n.outputs
  }

  predicate FreesIn(p: seq<Node>, x: Name) {
    exists n :: n in p && x in n.lastUsage
  }

  predicate DependsOn(p: seq<Node>, x: Name) {
    exists n :: n in p && (x in n.readDeps || x in n.writeDeps || x in n.weakDeps)
  }

  /** The storage `s` is what the name `x` stands for. */
  predicate StandsFor(g: Graph, x: Name, s: Name) {
    if x in g.realName then g.realName[x] == s else x == s
  }

  /** A buffer without a layout is not allocated, and neither is a mutation of one. */
  predicate Unallocated(g: Graph, x: Name) {
    && x in g.layout
    && match g.layout[x]
       case Allocated => false
       case NoLayout => true
       case NoLayoutMutation =>
         || x !in g.realName || g.realName[x] == ""
         || (g.realName[x] in g.layout && g.layout[g.realName[x]] != Allocated)
  }

  /** One look at the storage is enough, since real names are resolved. */
  lemma {:induction false} NoneLayoutIff(g: Graph, x: Name)
    requires Resolved(g)
    ensures IsNoneLayout(g, x) <==> Unallocated(g, x)
  {
    if x in g.realName {
      assert g.realName[x] !in g.realName;
    }
  }

  /** What partition `p` asks the graph for: storages that its nodes depend on under some name made elsewhere, and
      buffers made elsewhere that it frees. */
  ghost predicate AsksFor(g: Graph, p: seq<Node>, s: Name) {
    || (exists x :: DependsOn(p, x) && !Unallocated(g, x) && !Makes(p, x) && StandsFor(g, x, s))
    || (FreesIn(p, s) && !Makes(p, s) && s in g.named)
  }

  lemma {:induction false} AsksForIff(g: Graph, p: seq<Node>, s: Name)
    requires Resolved(g)
    ensures s in InputNames(g, p) <==> AsksFor(g, p, s)
  {
    forall x
      ensures (x in Deps(p) <==> DependsOn(p, x)) && (x in Outs(p) <==> Makes(p, x))
      ensures x in Frees(p) <==> FreesIn(p, x)
      ensures IsNoneLayout(g, x) <==> Unallocated(g, x)
    {
      SameNames(p, x);
      NoneLayoutIff(g, x);
    }
    hide Deps, Outs, Frees, DependsOn, Makes, FreesIn, IsNoneLayout, Unallocated;
    if s in InputNames(g, p) {
      if x :| x in Deps(p) && !IsNoneLayout(g, x) && x !in Outs(p) && s == Real(g, x) {
        assert DependsOn(p, x) && StandsFor(g, x, s);
      }
    }
  }

  lemma {:induction false} SameNames(p: seq<Node>, x: Name)
    ensures (x in Deps(p) <==> DependsOn(p, x)) && (x in Outs(p) <==> Makes(p, x)) && (x in Frees(p) <==> FreesIn(p, x))
  {
    if n :| n in p && (x in n.readDeps || x in n.writeDeps || x in n.weakDeps) {
      assert x in n.readDeps + n.writeDeps + n.weakDeps;
    }
  }

  /** An allocated buffer made before partition `i` is unmet there exactly when it is a graph output or a partition
      from `i` on asks for it. */
  lemma {:induction false} UnmetIff(g: Graph, ps: seq<seq<Node>>, i: nat, x: Name)
    requires Resolved(g) && Scheduled(g, Flatten(ps)) && i <= |ps|
    requires Before(g, Flatten(ps), Offset(ps, i), x) && !IsNoneLayout(g, x)
    ensures x in Unmet(g, ps, i) <==> x in g.outputs || exists j :: i <= j < |ps| && x in InputNames(g, ps[j])
    decreases |ps| - i
  {
    hide Scheduled, InputNames, Returned;
    if i < |ps| {
      OffsetMonotone(ps, i, i + 1);
      UnmetIff(g, ps, i + 1, x);
      if x !in InputNames(g, ps[i]) {
        NotReturned(g, ps, i, Unmet(g, ps, i + 1), x);
      }
    }
  }

  /** A partition returns no buffer from before it that it does not ask for. */
  lemma {:induction false} NotReturned(g: Graph, ps: seq<seq<Node>>, i: nat, unmet: set<Name>, x: Name)
    requires Resolved(g) && Scheduled(g, Flatten(ps)) && i < |ps|
    requires Before(g, Flatten(ps), Offset(ps, i), x) && !IsNoneLayout(g, x) && x !in InputNames(g, ps[i])
    ensures x !in Returned(g, ps[i], unmet)
  {
    hide Scheduled, InputNames;
    if x in Returned(g, ps[i], unmet) {
      var y :| y in Outs(ps[i]) * unmet + (Inputs(g, ps[i]) - Frees(ps[i])) && x == Real(g, y);
      if y in Inputs(g, ps[i]) {
        InputsBefore(g, ps, i, y);
        assert false;
      } else {
        var n :| n in ps[i] && y in n.outputs;
        WriteOf(g, ps, i, n, y);
        var a := MemberIndex(ps, i, n);
        MutatedIsInput(g, ps, i, a, x);
        assert false;
      }
    }
  }

  /** Buffer `y` of partition `i` is wanted after it. */
  ghost predicate Wanted(g: Graph, ps: seq<seq<Node>>, i: nat, y: Name)
    requires i < |ps|
  {
    y in g.outputs || exists j :: i < j < |ps| && AsksFor(g, ps[j], y)
  }

  /** The storages that partition `i` hands back: those it asked for and does not free, and those of which it makes a
      version that is wanted after it. */
  ghost predicate HandsBack(g: Graph, ps: seq<seq<Node>>, i: nat, s: Name)
    requires i < |ps|
  {
    && !Unallocated(g, s)
    && (|| (AsksFor(g, ps[i], s) && s in g.named && !FreesIn(ps[i], s))
        || (exists y :: Makes(ps[i], y) && StandsFor(g, y, s) && Wanted(g, ps, i, y)))
  }

  lemma {:induction false} HandsBackIff(g: Graph, ps: seq<seq<Node>>, skip: seq<bool>, i: nat, s: Name)
    requires Resolved(g) && Scheduled(g, Flatten(ps)) && i < |ps| == |skip|
    ensures s in SigAt(g, ps, skip, i).outputs <==> HandsBack(g, ps, i, s)
  {
    hide Scheduled, InputNames, Unmet, Unallocated, AsksFor, Wanted, Outs, Frees, Makes, FreesIn, IsNoneLayout, Deps;
    var p := ps[i];
    NoneLayoutIff(g, s);
    forall y
      ensures (y in Outs(p) <==> Makes(p, y)) && (y in Frees(p) <==> FreesIn(p, y))
      ensures y in InputNames(g, p) <==> AsksFor(g, p, y)
    {
      SameNames(p, y);
      AsksForIff(g, p, y);
    }
    forall y | y in Outs(p) && Real(g, y) == s && !IsNoneLayout(g, s)
      ensures y in Unmet(g, ps, i + 1) <==> Wanted(g, ps, i, y)
    {
      WantedIff(g, ps, i, y);
    }
    forall y | y in Inputs(g, p)
      ensures y !in g.realName
    {
      InputsBefore(g, ps, i, y);
    }
    if s in SigAt(g, ps, skip, i).outputs {
      var y :| y in Outs(p) * Unmet(g, ps, i + 1) + (Inputs(g, p) - Frees(p)) && s == Real(g, y);
      assert StandsFor(g, y, s);
    }
    if HandsBack(g, ps, i, s) {
      if AsksFor(g, p, s) && s in g.named && !FreesIn(p, s) {
        assert s in Inputs(g, p) - Frees(p) && Real(g, s) == s;
      } else {
        var y :| Makes(p, y) && StandsFor(g, y, s) && Wanted(g, ps, i, y);
        assert y in Outs(p) * Unmet(g, ps, i + 1) && Real(g, y) == s;
      }
    }
  }

  lemma {:induction false} WantedIff(g: Graph, ps: seq<seq<Node>>, i: nat, y: Name)
    requires Resolved(g) && Scheduled(g, Flatten(ps)) && i < |ps|
    requires y in Outs(ps[i]) && !IsNoneLayout(g, Real(g, y))
    ensures y in Unmet(g, ps, i + 1) <==> Wanted(g, ps, i, y)
  {
    hide Scheduled, InputNames, Unmet, IsNoneLayout, AsksFor;
    var n :| n in ps[i] && y in n.outputs;
    MadeBefore(g, ps, i, n, y);
    UnmetIff(g, ps, i + 1, y);
    forall j | i < j < |ps|
      ensures y in InputNames(g, ps[j]) <==> AsksFor(g, ps[j], y)
    {
      AsksForIff(g, ps[j], y);
    }
  }

  lemma {:induction false} MadeBefore(g: Graph, ps: seq<seq<Node>>, i: nat, n: Node, y: Name)
    requires Resolved(g) && Scheduled(g, Flatten(ps)) && i < |ps| && n in ps[i] && y in n.outputs
    ensures Before(g, Flatten(ps), Offset(ps, i + 1), y)
    ensures IsNoneLayout(g, y) == IsNoneLayout(g, Real(g, y))
  {
    hide DepsOk, LastUsesOk;
    var a := MemberIndex(ps, i, n);
  }

  /** The constants of a partition are exactly the graph constants that its nodes depend on. */
  lemma {:induction false} ConstantsAre(g: Graph, ps: seq<seq<Node>>, skip: seq<bool>, i: nat, x: Name)
    requires Resolved(g) && Scheduled(g, Flatten(ps)) && i < |ps| == |skip|
    ensures x in SigAt(g, ps, skip, i).constants <==> x in g.constants && DependsOn(ps[i], x)
  {
    hide MutationsOk, DepsOk, LastUsesOk, Outs, Deps, Frees, Unmet, Returned;
    var p := ps[i];
    SameNames(p, x);
    if x in g.constants {
      ConstantNotMade(g, ps, i, x);
      forall y | y in g.realName
        ensures g.realName[y] != x
      {
        MutationIsNamed(g, Flatten(ps), y);
      }
    }
  }

  lemma {:induction false} ConstantNotMade(g: Graph, ps: seq<seq<Node>>, i: nat, x: Name)
    requires Resolved(g) && Scheduled(g, Flatten(ps)) && i < |ps| && x in g.constants
    ensures x !in Outs(ps[i]) && x !in g.realName && !IsNoneLayout(g, x) && x !in g.named
  {
    hide MutationsOk, DepsOk, LastUsesOk;
    forall n | n in ps[i]
      ensures x !in n.outputs
    {
      var a := MemberIndex(ps, i, n);
    }
    ConstantIsReal(g, Flatten(ps), x);
  }

  lemma {:induction false} MutationIsNamed(g: Graph, ns: seq<Node>, y: Name)
    requires Resolved(g) && Scheduled(g, ns) && y in g.realName
    ensures g.realName[y] in g.named
  {
    hide DepsOk, LastUsesOk;
    assert MadeAt(ns, y) < |ns|;
    BeforeReal(g, ns, |ns|, y);
  }

  /** Every field of the signature of partition `i` of a scheduled graph. */
  lemma {:induction false} SignatureIs(g: Graph, ps: seq<seq<Node>>, skip: seq<bool>, i: nat, s: Name)
    requires Resolved(g) && Scheduled(g, Flatten(ps)) && i < |ps| == |skip|
    ensures var sig := SigAt(g, ps, skip, i);
            && (s in sig.inputs <==> s in g.named && AsksFor(g, ps[i], s))
            && (s in sig.outputs <==> HandsBack(g, ps, i, s))
            && sig.deallocation.Keys == sig.inputs
            && (s in sig.inputs ==> (sig.deallocation[s] <==> FreesIn(ps[i], s)))
            && (s in sig.constants <==> s in g.constants && DependsOn(ps[i], s))
            && sig.skipCudagraph == skip[i]
  {
    hide Scheduled, InputNames, Unmet, AsksFor, HandsBack, Returned;
    AsksForIff(g, ps[i], s);
    HandsBackIff(g, ps, skip, i, s);
    ConstantsAre(g, ps, skip, i, s);
    SameNames(ps[i], s);
  }
}
