/** The two-pass memory planner over nested subgraphs (vllm/env_override.py).

    `plan` on a line is a parameter: it rewrites the line and updates the planning state. */
module MemoryPlan {

  datatype Line<L> = Planning(name: string, payload: L) | Enter | Exit | Other(payload: L)

  type Planner<!L, !S> = (Line<L>, S) -> (Line<L>, S)

  /** Subgraphs entered less subgraphs left in the first `k` lines. */
  function Depth<L>(ls: seq<Line<L>>, k: nat): int
    requires k <= |ls|
  {
    if k == 0 then 0
    else Depth(ls, k - 1) + (if ls[k - 1].Enter? then 1 else if ls[k - 1].Exit? then -1 else 0)
  }

  predicate Balanced<L>(ls: seq<Line<L>>) {
    && (forall k :: 0 <= k <= |ls| ==> Depth(ls, k) >= 0)
    && Depth(ls, |ls|) == 0
  }

  /** The lines on which the pass neither reads nor pops an empty stack, and ends with it empty. */
  predicate Plannable<L>(ls: seq<Line<L>>) {
    && (forall k :: 0 <= k < |ls| && (ls[k].Planning? || ls[k].Exit?) ==> Depth(ls, k) >= 0)
    && Depth(ls, |ls|) == 0
  }

  /** Bracket matching: the `Enter` that is still open before line `k` when `d` inner ones are
      skipped; the whole graph is -1. */
  function Opener<L>(ls: seq<Line<L>>, k: nat, d: nat): int
    requires k <= |ls|
    decreases k
  {
    if k == 0 then -1 - d
    else match ls[k - 1]
      case Enter => if d == 0 then k - 1 else Opener(ls, k - 1, d - 1)
      case Exit => Opener(ls, k - 1, d + 1)
      case _ => Opener(ls, k - 1, d)
  }

  /** The innermost subgraph instance that line `k` belongs to. */
  function Instance<L>(ls: seq<Line<L>>, k: nat): int
    requires k <= |ls|
  {
    Opener(ls, k, 0)
  }

  /** The state of instance `e` before line `k`: its own earlier planning lines, and no others. */
  function StateOf<L, S>(ls: seq<Line<L>>, plan: Planner<L, S>, init: S, e: int, k: nat): S
    requires k <= |ls|
  {
    if k == 0 then init
    else
      var s := StateOf(ls, plan, init, e, k - 1);
      if ls[k - 1].Planning? && Instance(ls, k - 1) == e then plan(ls[k - 1], s).1 else s
  }

  function Planned<L, S>(ls: seq<Line<L>>, plan: Planner<L, S>, init: S, k: nat): Line<L>
    requires k < |ls|
  {
    if ls[k].Planning? then plan(ls[k], StateOf(ls, plan, init, Instance(ls, k), k)).0 else ls[k]
  }

  predicate Pointless<L>(l: Line<L>, outNames: set<string>) {
    l.Planning? && l.name !in outNames
  }

  /** The lines without the pointless ones at the end. */
  function Trimmed<L>(ls: seq<Line<L>>, outNames: set<string>): (r: seq<Line<L>>)
    ensures r <= ls
    ensures r != [] ==> !r[|r| - 1].Planning? || r[|r| - 1].name in outNames
    ensures forall k :: |r| <= k < |ls| ==> ls[k].Planning? && ls[k].name !in outNames
  {
    if ls != [] && Pointless(ls[|ls| - 1], outNames) then Trimmed(ls[..|ls| - 1], outNames) else ls
  }

  /** A planning state object: `serial` is its identity, `value` what planning has put in it. */
  datatype PlanningState<S> = PlanningState(serial: nat, value: S)

  /** Before line `k` the stack holds the open instances, outermost first, with their states. */
  ghost predicate Tracks<L, S>(ls: seq<Line<L>>, plan: Planner<L, S>, init: S, k: nat, active: seq<int>, values: seq<S>)
    requires k <= |ls|
  {
    && |active| == |values| == Depth(ls, k) + 1
    && (forall d {:trigger Opener(ls, k, d)} :: 0 <= d < |active| ==> Opener(ls, k, d) == active[|active| - 1 - d])
    && (forall c, d :: 0 <= c < d < |active| ==> active[c] < active[d])
    && (forall d :: 0 <= d < |active| ==> active[d] < k)
    && (forall d :: 0 <= d < |active| ==> values[d] == StateOf(ls, plan, init, active[d], k))
  }

  lemma {:induction false} OpenerBefore<L>(ls: seq<Line<L>>, k: nat, d: nat)
    requires k <= |ls|
    ensures Opener(ls, k, d) < k
    decreases k
  {
    if k == 0 {
    } else {
      OpenerBefore(ls, k - 1, d + 1);
      OpenerBefore(ls, k - 1, d);
      if d > 0 {
        OpenerBefore(ls, k - 1, d - 1);
      }
    }
  }

  /** An instance that has not been entered has planned nothing. */
  lemma {:induction false} NewInstance<L, S>(ls: seq<Line<L>>, plan: Planner<L, S>, init: S, e: nat, k: nat)
    requires k <= e + 1 && k <= |ls|
    ensures StateOf(ls, plan, init, e, k) == init
  {
    if k == 0 {
    } else {
      NewInstance(ls, plan, init, e, k - 1);
      OpenerBefore(ls, k - 1, 0);
    }
  }

  lemma {:induction false} TracksEnter<L, S>(ls: seq<Line<L>>, plan: Planner<L, S>, init: S, k: nat, active: seq<int>,
                                             values: seq<S>)
    requires k < |ls| && ls[k].Enter? && Tracks(ls, plan, init, k, active, values)
    ensures Tracks(ls, plan, init, k + 1, active + [k], values + [init])
  {
    NewInstance(ls, plan, init, k, k + 1);
    forall d {:trigger Opener(ls, k + 1, d)} | 0 <= d <= |active|
      ensures Opener(ls, k + 1, d) == (active + [k])[|active| - d]
    {
      assert d > 0 ==> Opener(ls, k, d - 1) == active[|active| - d];
    }
  }

  lemma {:induction false} TracksExit<L, S>(ls: seq<Line<L>>, plan: Planner<L, S>, init: S, k: nat, active: seq<int>,
                                            values: seq<S>)
    requires k < |ls| && ls[k].Exit? && Tracks(ls, plan, init, k, active, values) && active != []
    ensures Tracks(ls, plan, init, k + 1, active[..|active| - 1], values[..|active| - 1]) && Depth(ls, k) >= 0
  {
    forall d {:trigger Opener(ls, k + 1, d)} | 0 <= d < |active| - 1
      ensures Opener(ls, k + 1, d) == active[..|active| - 1][|active| - 2 - d]
    {
      assert Opener(ls, k, d + 1) == active[|active| - 2 - d];
    }
  }

  /** Only the innermost state changes, and it is the one the line is planned against. */
  lemma {:induction false} TracksPlanning<L, S>(ls: seq<Line<L>>, plan: Planner<L, S>, init: S, k: nat,
                                                active: seq<int>, values: seq<S>)
    requires k < |ls| && ls[k].Planning? && Tracks(ls, plan, init, k, active, values) && active != []
    ensures active[|active| - 1] == Instance(ls, k) && Depth(ls, k) >= 0
    ensures plan(ls[k], values[|active| - 1]).0 == Planned(ls, plan, init, k)
    ensures Tracks(ls, plan, init, k + 1, active, values[|active| - 1 := plan(ls[k], values[|active| - 1]).1])
  {
    forall d {:trigger Opener(ls, k + 1, d)} | 0 <= d < |active|
      ensures Opener(ls, k + 1, d) == active[|active| - 1 - d]
    {
      assert Opener(ls, k, d) == active[|active| - 1 - d];
    }
  }

  lemma {:induction false} TracksOther<L, S>(ls: seq<Line<L>>, plan: Planner<L, S>, init: S, k: nat, active: seq<int>,
                                             values: seq<S>)
    requires k < |ls| && ls[k].Other? && Tracks(ls, plan, init, k, active, values)
    ensures Tracks(ls, plan, init, k + 1, active, values)
  {
    forall d {:trigger Opener(ls, k + 1, d)} | 0 <= d < |active|
      ensures Opener(ls, k + 1, d) == active[|active| - 1 - d]
    {
      assert Opener(ls, k, d) == active[|active| - 1 - d];
    }
  }

  ghost function Values<S>(states: seq<PlanningState<S>>): (vs: seq<S>)
    ensures |vs| == |states| && forall d :: 0 <= d < |states| ==> vs[d] == states[d].value
  {
    seq(|states|, d requires 0 <= d < |states| => states[d].value)
  }

  /** Each instance so far has one state object, which no other instance has. */
  ghost predicate Owns<S>(owner: map<int, nat>, count: nat, k: nat, active: seq<int>, states: seq<PlanningState<S>>) {
    && |active| == |states|
    && (forall d :: 0 <= d < |active| ==> active[d] in owner && owner[active[d]] == states[d].serial)
    && (forall a, b :: a in owner && b in owner && a != b ==> owner[a] != owner[b])
    && (forall a :: a in owner ==> a < k && owner[a] < count)
  }

  /** Each planning line so far was planned against the state object of its own instance. */
  ghost predicate UsedOwn<L>(ls: seq<Line<L>>, owner: map<int, nat>, used: seq<nat>) {
    && |used| <= |ls|
    && forall k :: 0 <= k < |used| && ls[k].Planning? ==> Instance(ls, k) in owner && owner[Instance(ls, k)] == used[k]
  }

  lemma {:induction false} OwnsEnter<S>(owner: map<int, nat>, count: nat, k: nat, active: seq<int>,
                                        states: seq<PlanningState<S>>, init: S)
    requires Owns(owner, count, k, active, states)
    ensures Owns(owner[k := count], count + 1, k + 1, active + [k], states + [PlanningState(count, init)])
  {
  }

  lemma {:induction false} OwnsExit<S>(owner: map<int, nat>, count: nat, k: nat, active: seq<int>,
                                       states: seq<PlanningState<S>>)
    requires Owns(owner, count, k, active, states) && states != []
    ensures Owns(owner, count, k + 1, active[..|active| - 1], states[..|states| - 1])
  {
  }

  lemma {:induction false} OwnsPlanning<S>(owner: map<int, nat>, count: nat, k: nat, active: seq<int>,
                                           states: seq<PlanningState<S>>, value: S)
    requires Owns(owner, count, k, active, states) && states != []
    ensures active != [] && active[|active| - 1] in owner && owner[active[|active| - 1]] == states[|states| - 1].serial
    ensures Owns(owner, count, k + 1, active, states[|states| - 1 := states[|states| - 1].(value := value)])
  {
  }

  lemma {:induction false} OwnsOther<S>(owner: map<int, nat>, count: nat, k: nat, active: seq<int>,
                                        states: seq<PlanningState<S>>)
    requires Owns(owner, count, k, active, states)
    ensures Owns(owner, count, k + 1, active, states)
  {
  }

  lemma {:induction false} UsedOwnNext<L>(ls: seq<Line<L>>, owner: map<int, nat>, owner': map<int, nat>, used: seq<nat>,
                                          serial: nat)
    requires UsedOwn(ls, owner, used) && |used| < |ls|
    requires forall a :: a in owner ==> a in owner' && owner'[a] == owner[a]
    requires ls[|used|].Planning? ==> Instance(ls, |used|) in owner && owner[Instance(ls, |used|)] == serial
    ensures UsedOwn(ls, owner', used + [serial])
  {
  }

  /** Everything the loop knows before line `k`: the stack `states` of the instances `active`, the
      state object of every instance so far, and the objects used so far. */
  ghost predicate PassInv<L, S>(ls: seq<Line<L>>, plan: Planner<L, S>, init: S, k: nat, active: seq<int>,
                                states: seq<PlanningState<S>>, owner: map<int, nat>, count: nat, used: seq<nat>) {
    && |used| == k <= |ls|
    && Tracks(ls, plan, init, k, active, Values(states))
    && Owns(owner, count, k, active, states)
    && UsedOwn(ls, owner, used)
    && forall m :: 0 <= m < k && (ls[m].Planning? || ls[m].Exit?) ==> Depth(ls, m) >= 0
  }

  lemma {:induction false} PassHeight<L, S>(ls: seq<Line<L>>, plan: Planner<L, S>, init: S, k: nat, active: seq<int>,
                                            states: seq<PlanningState<S>>, owner: map<int, nat>, count: nat,
                                            used: seq<nat>)
    requires PassInv(ls, plan, init, k, active, states, owner, count, used)
    ensures k <= |ls| && |active| == |states| == Depth(ls, k) + 1
  {
  }

  lemma {:induction false} PassEnter<L, S>(ls: seq<Line<L>>, plan: Planner<L, S>, init: S, k: nat, active: seq<int>,
                                           states: seq<PlanningState<S>>, owner: map<int, nat>, count: nat,
                                           used: seq<nat>)
    requires PassInv(ls, plan, init, k, active, states, owner, count, used) && k < |ls| && ls[k].Enter?
    ensures Planned(ls, plan, init, k) == ls[k]
    ensures PassInv(ls, plan, init, k + 1, active + [k], states + [PlanningState(count, init)],
                    owner[k := count], count + 1, used + [0])
  {
    hide Tracks, Owns, UsedOwn, Instance;
    TracksEnter(ls, plan, init, k, active, Values(states));
    OwnsEnter(owner, count, k, active, states, init);
    assert forall a :: a in owner ==> a < k by { OwnsNames(owner, count, k, active, states); }
    UsedOwnNext(ls, owner, owner[k := count], used, 0);
    assert Values(states + [PlanningState(count, init)]) == Values(states) + [init];
  }

  lemma {:induction false} OwnsNames<S>(owner: map<int, nat>, count: nat, k: nat, active: seq<int>,
                                        states: seq<PlanningState<S>>)
    requires Owns(owner, count, k, active, states)
    ensures forall a :: a in owner ==> a < k
    ensures forall a, b :: a in owner && b in owner && a != b ==> owner[a] != owner[b]
  {
  }

  lemma {:induction false} PassExit<L, S>(ls: seq<Line<L>>, plan: Planner<L, S>, init: S, k: nat, active: seq<int>,
                                          states: seq<PlanningState<S>>, owner: map<int, nat>, count: nat,
                                          used: seq<nat>)
    requires PassInv(ls, plan, init, k, active, states, owner, count, used) && k < |ls| && ls[k].Exit?
    requires states != [] && active != []
    ensures Planned(ls, plan, init, k) == ls[k]
    ensures PassInv(ls, plan, init, k + 1, active[..|active| - 1], states[..|states| - 1], owner, count, used + [0])
  {
    PassHeight(ls, plan, init, k, active, states, owner, count, used);
    hide Tracks, Owns, UsedOwn, Instance;
    TracksExit(ls, plan, init, k, active, Values(states));
    OwnsExit(owner, count, k, active, states);
    UsedOwnNext(ls, owner, owner, used, 0);
    assert Values(states[..|states| - 1]) == Values(states)[..|active| - 1];
  }

  lemma {:induction false} PassPlanning<L, S>(ls: seq<Line<L>>, plan: Planner<L, S>, init: S, k: nat, active: seq<int>,
                                              states: seq<PlanningState<S>>, owner: map<int, nat>, count: nat,
                                              used: seq<nat>)
    requires PassInv(ls, plan, init, k, active, states, owner, count, used) && k < |ls| && ls[k].Planning?
    requires states != []
    ensures var top := states[|states| - 1];
            && plan(ls[k], top.value).0 == Planned(ls, plan, init, k)
            && PassInv(ls, plan, init, k + 1, active,
                       states[|states| - 1 := top.(value := plan(ls[k], top.value).1)], owner, count,
                       used + [top.serial])
  {
    hide UsedOwn, Planned;
    var top := states[|states| - 1];
    var value := plan(ls[k], top.value).1;
    TracksPlanning(ls, plan, init, k, active, Values(states));
    OwnsPlanning(owner, count, k, active, states, value);
    UsedOwnNext(ls, owner, owner, used, top.serial);
    assert Values(states[|states| - 1 := top.(value := value)]) == Values(states)[|active| - 1 := value];
  }

  lemma {:induction false} PassOther<L, S>(ls: seq<Line<L>>, plan: Planner<L, S>, init: S, k: nat, active: seq<int>,
                                           states: seq<PlanningState<S>>, owner: map<int, nat>, count: nat,
                                           used: seq<nat>)
    requires PassInv(ls, plan, init, k, active, states, owner, count, used) && k < |ls| && ls[k].Other?
    ensures Planned(ls, plan, init, k) == ls[k]
    ensures PassInv(ls, plan, init, k + 1, active, states, owner, count, used + [0])
  {
    hide Tracks, Owns, UsedOwn, Instance;
    TracksOther(ls, plan, init, k, active, Values(states));
    OwnsOther(owner, count, k, active, states);
    UsedOwnNext(ls, owner, owner, used, 0);
  }

  lemma {:induction false} PassStart<L, S>(ls: seq<Line<L>>, plan: Planner<L, S>, init: S)
    ensures PassInv(ls, plan, init, 0, [-1], [PlanningState(0, init)], map[-1 := 0], 1, [])
  {
  }

  lemma {:induction false} PassEnd<L, S>(ls: seq<Line<L>>, plan: Planner<L, S>, init: S, active: seq<int>,
                                         states: seq<PlanningState<S>>, owner: map<int, nat>, count: nat,
                                         used: seq<nat>)
    requires PassInv(ls, plan, init, |ls|, active, states, owner, count, used)
    ensures |used| == |ls|
    ensures |states| == 1 <==> Plannable(ls)
    ensures forall i, j :: 0 <= i < |ls| && 0 <= j < |ls| && ls[i].Planning? && ls[j].Planning? ==>
              (used[i] == used[j] <==> Instance(ls, i) == Instance(ls, j))
  {
    OwnsNames(owner, count, |ls|, active, states);
  }

  /** The outcome of the planning pass: every line planned against the state of its own instance,
      and two lines against the same object exactly when their instance is the same. */
  ghost predicate PlannedApart<L, S>(ls: seq<Line<L>>, plan: Planner<L, S>, init: S, result: seq<Line<L>>,
                                     used: seq<nat>)
  {
    && |result| == |used| == |ls|
    && (forall k :: 0 <= k < |ls| ==>
          result[k] == if ls[k].Planning? then plan(ls[k], StateOf(ls, plan, init, Instance(ls, k), k)).0 else ls[k])
    && (forall i, j :: 0 <= i < |ls| && 0 <= j < |ls| && ls[i].Planning? && ls[j].Planning? ==>
          (used[i] == used[j] <==> Instance(ls, i) == Instance(ls, j)))
  }

  /** The planning loop.  `ok` is false where the source raises, and `used[k]` is the serial number
      of the state object that planning line `k` was planned against. */
  method PlanLines<L, S>(ls: seq<Line<L>>, plan: Planner<L, S>, init: S)
    returns (ok: bool, lines: seq<Line<L>>, used: seq<nat>)
    ensures ok <==> Plannable(ls)
    ensures ok ==> PlannedApart(ls, plan, init, lines, used)
  {
    hide PassInv, Planned, Instance, Depth;
    lines, used := ls, [];
    var count := 1;
    var states := [PlanningState(0, init)];
    ghost var active: seq<int> := [-1];               // the instances on the stack
    ghost var owner: map<int, nat> := map[-1 := 0];   // the state object of every instance so far
    PassStart(ls, plan, init);
    for i := 0 to |lines|
      invariant |lines| == |ls|
      invariant forall k :: i <= k < |ls| ==> lines[k] == ls[k]
      invariant forall k :: 0 <= k < i ==> lines[k] == Planned(ls, plan, init, k)
      invariant PassInv(ls, plan, init, i, active, states, owner, count, used)
    {
      PassHeight(ls, plan, init, i, active, states, owner, count, used);
      match lines[i]
      case Planning(_, _) =>
        if states == [] {
          return false, lines, used;
        }
        PassPlanning(ls, plan, init, i, active, states, owner, count, used);
        var top := states[|states| - 1];
        var (line, value) := plan(lines[i], top.value);
        lines := lines[i := line];
        states := states[|states| - 1 := top.(value := value)];
        used := used + [top.serial];
      case Enter =>
        PassEnter(ls, plan, init, i, active, states, owner, count, used);
        states := states + [PlanningState(count, init)];
        active, owner := active + [i], owner[i := count];
        count := count + 1;
        used := used + [0];
      case Exit =>
        if states == [] {
          return false, lines, used;
        }
        PassExit(ls, plan, init, i, active, states, owner, count, used);
        states := states[..|states| - 1];
        active := active[..|active| - 1];
        used := used + [0];
      case Other(_) =>
        PassOther(ls, plan, init, i, active, states, owner, count, used);
        used := used + [0];
    }
    ok := |states| == 1;
    PassEnd(ls, plan, init, active, states, owner, count, used);
    forall k | 0 <= k < |ls|
      ensures Planned(ls, plan, init, k) ==
              if ls[k].Planning? then plan(ls[k], StateOf(ls, plan, init, Instance(ls, k), k)).0 else ls[k]
    {
      PlannedIs(ls, plan, init, k);
    }
  }

  lemma {:induction false} PlannedIs<L, S>(ls: seq<Line<L>>, plan: Planner<L, S>, init: S, k: nat)
    requires k < |ls|
    ensures Planned(ls, plan, init, k) ==
            if ls[k].Planning? then plan(ls[k], StateOf(ls, plan, init, Instance(ls, k), k)).0 else ls[k]
  {
  }

  class WrapperCodegen<L, S> {
    var lines: seq<Line<L>>

    /** `memory_plan_reuse_patched`, with the names of the graph or partition outputs given. */
    method MemoryPlanReuse(outNames: set<string>, plan: Planner<L, S>, init: S) returns (ok: bool, used: seq<nat>)
      modifies this
      ensures ok <==> Plannable(Trimmed(old(lines), outNames))
      ensures ok ==> PlannedApart(Trimmed(old(lines), outNames), plan, init, lines, used)
    {
      while lines != [] && Pointless(lines[|lines| - 1], outNames)
        invariant Trimmed(lines, outNames) == Trimmed(old(lines), outNames)
        decreases |lines|
      {
        lines := lines[..|lines| - 1];
      }
      ok, lines, used := PlanLines(lines, plan, init);
    }
  }

  // ---- What instances and their states are ----------------------------------------------------

  /** Line `e` enters a subgraph that is still open before line `k`, with `d` others open inside it: the depth is that
      much larger, and was not down to that before line `e` in between. */
  ghost predicate OpenSince<L>(ls: seq<Line<L>>, e: nat, k: nat, d: int)
    requires e < k <= |ls|
  {
    ls[e].Enter? && Depth(ls, k) == Depth(ls, e) + 1 + d && forall m :: e < m <= k ==> Depth(ls, m) > Depth(ls, e)
  }

  lemma {:induction false} OpenerIff<L>(ls: seq<Line<L>>, k: nat, d: nat, e: nat)
    requires e < k <= |ls|
    ensures Opener(ls, k, d) == e <==> OpenSince(ls, e, k, d)
    decreases k
  {
    DepthStep(ls, k - 1);
    if e == k - 1 {
      if ls[k - 1].Exit? {
        OpenerBefore(ls, k - 1, d + 1);
      } else if ls[k - 1].Enter? && d > 0 {
        OpenerBefore(ls, k - 1, d - 1);
      } else if !ls[k - 1].Enter? {
        OpenerBefore(ls, k - 1, d);
      }
    } else {
      match ls[k - 1]
      case Enter =>
        if d > 0 {
          OpenerIff(ls, k - 1, d - 1, e);
        }
        OpenNext(ls, e, k - 1, d, d - 1);
      case Exit =>
        OpenerIff(ls, k - 1, d + 1, e);
        OpenNext(ls, e, k - 1, d, d + 1);
      case _ =>
        OpenerIff(ls, k - 1, d, e);
        OpenNext(ls, e, k - 1, d, d);
    }
  }

  lemma {:induction false} DepthStep<L>(ls: seq<Line<L>>, k: nat)
    requires k < |ls|
    ensures Depth(ls, k + 1) == Depth(ls, k) + (if ls[k].Enter? then 1 else if ls[k].Exit? then -1 else 0)
  {
  }

  lemma {:induction false} OpenNext<L>(ls: seq<Line<L>>, e: nat, k: nat, d: nat, d': int)
    requires e < k < |ls| && Depth(ls, k + 1) - d == Depth(ls, k) - d'
    ensures OpenSince(ls, e, k + 1, d) <==> OpenSince(ls, e, k, d') && d' >= 0
  {
    hide Depth;
    if OpenSince(ls, e, k + 1, d) {
      assert Depth(ls, k) > Depth(ls, e);
    }
  }

  /** The instance of a line is the subgraph that was entered last and is still open. */
  lemma {:induction false} InstanceIff<L>(ls: seq<Line<L>>, k: nat, e: nat)
    requires e < k <= |ls|
    ensures Instance(ls, k) == e <==> OpenSince(ls, e, k, 0)
  {
    hide Opener;
    OpenerIff(ls, k, 0, e);
  }

  /** The state of an instance changes at its own planning lines, as planning says, and nowhere else. */
  lemma {:induction false} StateChanges<L, S>(ls: seq<Line<L>>, plan: Planner<L, S>, init: S, e: int, k: nat)
    requires k < |ls|
    ensures StateOf(ls, plan, init, e, 0) == init
    ensures StateOf(ls, plan, init, e, k + 1) ==
            if ls[k].Planning? && Instance(ls, k) == e then plan(ls[k], StateOf(ls, plan, init, e, k)).1
            else StateOf(ls, plan, init, e, k)
  {
  }

  // ---- Balanced lines -----------------------------------------------------------------------

  lemma {:induction false} DepthPrefix<L>(ls: seq<Line<L>>, r: seq<Line<L>>, k: nat)
    requires r <= ls && k <= |r|
    ensures Depth(r, k) == Depth(ls, k)
  {
    if k == 0 {
    } else {
      DepthPrefix(ls, r, k - 1);
    }
  }

  lemma {:induction false} DepthFlat<L>(ls: seq<Line<L>>, i: nat, j: nat)
    requires i <= j <= |ls|
    requires forall k :: i <= k < j ==> ls[k].Planning?
    ensures Depth(ls, j) == Depth(ls, i)
  {
    if i < j {
      DepthFlat(ls, i, j - 1);
    }
  }

  /** Trimming does not change the brackets. */
  lemma {:induction false} TrimmedBalanced<L>(ls: seq<Line<L>>, outNames: set<string>)
    ensures Balanced(Trimmed(ls, outNames)) <==> Balanced(ls)
  {
    var r := Trimmed(ls, outNames);
    forall k | 0 <= k <= |r|
      ensures Depth(r, k) == Depth(ls, k)
    {
      DepthPrefix(ls, r, k);
    }
    forall k | |r| <= k <= |ls|
      ensures Depth(ls, k) == Depth(ls, |r|)
    {
      DepthFlat(ls, |r|, k);
    }
  }

  /** Every balanced list of lines is planned to the end, and stays balanced when trimmed. */
  lemma {:induction false} BalancedPlannable<L>(ls: seq<Line<L>>, outNames: set<string>)
    requires Balanced(ls)
    ensures Plannable(Trimmed(ls, outNames))
  {
    TrimmedBalanced(ls, outNames);
  }

  /** Leaving and re-entering the whole graph is not balanced, yet it is not caught. */
  lemma {:induction false} LeaveAndReenterAccepted<L>(x: L)
    ensures Plannable<L>([Exit, Enter]) && !Balanced<L>([Exit, Enter])
  {
    var ls: seq<Line<L>> := [Exit, Enter];
    assert Depth(ls, 0) == 0 && Depth(ls, 1) == -1 && Depth(ls, 2) == 0;
  }
}
