/** Signatures of graph partitions: the backward liveness pass that turns a list of
    partitions of scheduler nodes into closed functions (vllm/env_override.py).

    Ordered sets of names are modelled as sets.  A name whose real name differs from itself
    is a mutation: it denotes a new version of the storage called by its real name. */
module GraphPartition {
  import opened Options

  type Name = string

  /** How the scheduler laid out a buffer.  `NoLayoutMutation` is a `MutationOutput`. */
  datatype Layout = Allocated | NoLayout | NoLayoutMutation

  /** A scheduler node.  `weakDeps` holds the names of its ordering-only dependencies. */
  datatype Node = Node(
    id: nat,
    outputs: set<Name>,
    readDeps: set<Name>,
    writeDeps: set<Name>,
    weakDeps: set<Name>,
    lastUsage: set<Name>)

  /** What the pass knows of the graph.  `named` is the domain of `name_to_node`. */
  datatype Graph = Graph(
    layout: map<Name, Layout>,
    realName: map<Name, Name>,
    inputs: set<Name>,
    constants: set<Name>,
    outputs: set<Name>,
    named: set<Name>)

  datatype Signature = Signature(
    inputs: set<Name>,
    outputs: set<Name>,
    deallocation: map<Name, bool>,
    skipCudagraph: bool,
    constants: set<Name>)

  /** The scheduler stores real names fully resolved. */
  predicate Resolved(g: Graph) {
    forall x {:trigger g.realName[x]} :: x in g.realName ==> g.realName[x] !in g.realName
  }

  function Real(g: Graph, x: Name): Name {
    if x in g.realName then g.realName[x] else x
  }

  predicate IsNoneLayout(g: Graph, x: Name)
    requires Resolved(g)
    decreases if x in g.realName then 1 else 0
  {
    if x !in g.layout then false
    else match g.layout[x]
      case Allocated => false
      case NoLayout => true
      case NoLayoutMutation =>
        if x in g.realName && g.realName[x] != "" then IsNoneLayout(g, g.realName[x]) else true
  }

  // What a partition, as a list of nodes, makes, mentions and frees.

  function Outs(p: seq<Node>): set<Name> {
    set n, x | n in p && x in n.outputs :: x
  }

  function Deps(p: seq<Node>): set<Name> {
    set n, x | n in p && x in n.readDeps + n.writeDeps + n.weakDeps :: x
  }

  function Frees(p: seq<Node>): set<Name> {
    set n, x | n in p && x in n.lastUsage :: x
  }

  // The names one step of the pass computes, given the names still unmet after it.

  function InputNames(g: Graph, p: seq<Node>): set<Name>
    requires Resolved(g)
  {
    (set x | x in Deps(p) && !IsNoneLayout(g, x) && x !in Outs(p) :: Real(g, x))
    + (set x | x in Frees(p) && x !in Outs(p) && x in g.named)
  }

  function Inputs(g: Graph, p: seq<Node>): set<Name>
    requires Resolved(g)
  {
    InputNames(g, p) * g.named
  }

  function Returned(g: Graph, p: seq<Node>, unmet: set<Name>): set<Name>
    requires Resolved(g)
  {
    set x | x in Outs(p) * unmet + (Inputs(g, p) - Frees(p)) :: Real(g, x)
  }

  function SignatureOf(g: Graph, p: seq<Node>, unmet: set<Name>, skip: bool): Signature
    requires Resolved(g)
  {
    Signature(
      Inputs(g, p),
      set x | x in Returned(g, p, unmet) && !IsNoneLayout(g, x),
      map x | x in Inputs(g, p) :: x in Frees(p),
      skip,
      InputNames(g, p) * g.constants)
  }

  /** The names unmet after partition `i - 1`, that is, before `ps[i..]` has run. */
  function Unmet(g: Graph, ps: seq<seq<Node>>, i: nat): set<Name>
    requires Resolved(g) && i <= |ps|
    decreases |ps| - i
  {
    if i == |ps| then g.outputs
    else
      var unmet := Unmet(g, ps, i + 1);
      InputNames(g, ps[i]) + (unmet - Returned(g, ps[i], unmet))
  }

  function SigAt(g: Graph, ps: seq<seq<Node>>, skip: seq<bool>, i: nat): Signature
    requires Resolved(g) && i < |ps| == |skip|
  {
    SignatureOf(g, ps[i], Unmet(g, ps, i + 1), skip[i])
  }

  lemma {:induction false} SkipIs(g: Graph, ps: seq<seq<Node>>, skip: seq<bool>, i: nat)
    requires Resolved(g) && i < |ps| == |skip|
    ensures SigAt(g, ps, skip, i).skipCudagraph == skip[i]
  {
  }

  /** Looking up the node of a returned name raises a `KeyError` when there is none. */
  predicate LookupsSucceed(g: Graph, ps: seq<seq<Node>>, skip: seq<bool>, i: nat)
    requires Resolved(g) && i < |ps| == |skip|
  {
    SigAt(g, ps, skip, i).outputs <= g.named
  }

  /** One pass over the nodes of a partition per ordered set that is updated from them. */
  method Collect(p: seq<Node>) returns (outs: set<Name>, deps: set<Name>, frees: set<Name>)
    ensures outs == Outs(p) && deps == Deps(p) && frees == Frees(p)
  {
    outs, deps, frees := {}, {}, {};
    for k := 0 to |p|
      invariant outs == Outs(p[..k])
      invariant deps == Deps(p[..k])
      invariant frees == Frees(p[..k])
    {
      assert p[..k + 1] == p[..k] + [p[k]];
      outs := outs + p[k].outputs;
      deps := deps + (p[k].readDeps + p[k].writeDeps + p[k].weakDeps);
      frees := frees + p[k].lastUsage;
    }
    assert p[..|p|] == p;
  }

  /** One iteration of the backward loop. */
  method PartitionStep(g: Graph, p: seq<Node>, unmet: set<Name>, skip: bool)
    returns (r: Option<Signature>, unmet': set<Name>)
    requires Resolved(g)
    ensures r == if SignatureOf(g, p, unmet, skip).outputs <= g.named
                 then Some(SignatureOf(g, p, unmet, skip)) else None
    ensures r.Some? ==> unmet' == InputNames(g, p) + (unmet - Returned(g, p, unmet))
  {
    var outs, deps, frees := Collect(p);
    var inputNames := set x | x in deps && !IsNoneLayout(g, x) && x !in outs :: Real(g, x);
    inputNames := inputNames + set x | x in frees - outs && x in g.named;
    assert inputNames == InputNames(g, p);
    var inputNodes := set x | x in inputNames && x in g.named;
    assert inputNodes == Inputs(g, p);
    var returned := outs * unmet + set x | x in inputNodes && x !in frees;
    assert returned == outs * unmet + (Inputs(g, p) - frees);
    returned := set x | x in returned :: Real(g, x);
    assert returned == Returned(g, p, unmet);
    var outputNodes := set x | x in returned && !IsNoneLayout(g, x);
    assert outputNodes == SignatureOf(g, p, unmet, skip).outputs;
    if !(outputNodes <= g.named) {
      return None, unmet;
    }
    var constantNames := set x | x in inputNames && x in g.constants;
    assert constantNames == InputNames(g, p) * g.constants;
    var deallocation := map x | x in inputNodes :: x in frees;
    assert deallocation == SignatureOf(g, p, unmet, skip).deallocation;
    r := Some(Signature(inputNodes, outputNodes, deallocation, skip, constantNames));
    unmet' := inputNames + (unmet - returned);
  }

  /** `get_graph_partition_signature_patched`: `None` is the `KeyError` of a failed lookup. */
  method GetGraphPartitionSignature(g: Graph, partitions: seq<seq<Node>>, skipCudagraphs: seq<bool>)
    returns (r: Option<seq<Signature>>)
    requires Resolved(g) && |partitions| == |skipCudagraphs|
    ensures r.Some? <==> forall i :: 0 <= i < |partitions| ==> LookupsSucceed(g, partitions, skipCudagraphs, i)
    ensures r.Some? ==> |r.value| == |partitions|
    ensures r.Some? ==> forall i :: 0 <= i < |partitions| ==> r.value[i] == SigAt(g, partitions, skipCudagraphs, i)
    ensures r.Some? ==> forall i :: 0 <= i < |partitions| ==> r.value[i].skipCudagraph == skipCudagraphs[i]
  {
    hide SignatureOf, InputNames, Returned, Resolved;
    var n := |partitions|;
    var signatures: seq<Signature> := [];
    var unmet := g.outputs;
    for m := 0 to n
      invariant unmet == Unmet(g, partitions, n - m)
      invariant |signatures| == m
      invariant forall i :: n - m <= i < n ==> LookupsSucceed(g, partitions, skipCudagraphs, i)
      invariant forall k :: 0 <= k < m ==> signatures[k] == SigAt(g, partitions, skipCudagraphs, n - 1 - k)
    {
      var i := n - 1 - m;
      var signature, unmet' := PartitionStep(g, partitions[i], unmet, skipCudagraphs[i]);
      if signature.None? {
        assert !LookupsSucceed(g, partitions, skipCudagraphs, i);
        return None;
      }
      signatures := signatures + [signature.value];
      unmet := unmet';
    }
    r := Some(seq(n, i requires 0 <= i < n => signatures[n - 1 - i]));
    forall i | 0 <= i < n
      ensures r.value[i] == SigAt(g, partitions, skipCudagraphs, i) && r.value[i].skipCudagraph == skipCudagraphs[i]
    {
      var k := n - 1 - i;
      assert i == n - 1 - k;
      SkipIs(g, partitions, skipCudagraphs, i);
    }
  }
}
