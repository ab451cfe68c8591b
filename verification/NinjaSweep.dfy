/** The event sweep that shares elapsed build time among the steps that run at the same time
    (tools/report_build_time_ninja.py), over exact real arithmetic. */
module NinjaSweep {

  datatype Task = Task(start: real, end: real)

  /** A step starts or stops.  At equal times a start sorts before a stop. */
  datatype Event = Event(time: real, stop: bool, task: nat)

  datatype Swept = Swept(weighted: seq<real>, total: real) | NotRunning

  datatype Summary = Summary(weighted: seq<real>, total: real, length: real) | NoEntries | KeyError

  function StartOf(tasks: seq<Task>, t: nat): Event
    requires t < |tasks|
  {
    Event(tasks[t].start, false, t)
  }

  function StopOf(tasks: seq<Task>, t: nat): Event
    requires t < |tasks|
  {
    Event(tasks[t].end, true, t)
  }

  /** The order of the sort key. */
  predicate Before(e: Event, f: Event) {
    e.time < f.time || (e.time == f.time && (!e.stop || f.stop))
  }

  predicate Ordered(es: seq<Event>) {
    forall i, j :: 0 <= i < j < |es| ==> Before(es[i], es[j])
  }

  predicate NoRepeats(es: seq<Event>) {
    forall i, j :: 0 <= i < j < |es| ==> es[i] != es[j]
  }

  predicate IsEvent(tasks: seq<Task>, e: Event) {
    e.task < |tasks| && e == if e.stop then StopOf(tasks, e.task) else StartOf(tasks, e.task)
  }

  /** The two events of every task, each once. */
  predicate HasEvents(tasks: seq<Task>, es: seq<Event>) {
    && NoRepeats(es)
    && (forall i :: 0 <= i < |es| ==> IsEvent(tasks, es[i]))
    && (forall t :: 0 <= t < |tasks| ==> StartOf(tasks, t) in es)
    && (forall t :: 0 <= t < |tasks| ==> StopOf(tasks, t) in es)
  }

  /** No step ends before it starts. */
  predicate InOrder(tasks: seq<Task>) {
    forall t :: 0 <= t < |tasks| ==> tasks[t].start <= tasks[t].end
  }

  predicate NonNegative(tasks: seq<Task>) {
    forall t :: 0 <= t < |tasks| ==> 0.0 <= tasks[t].start
  }

  // ---- What the sweep is meant to compute -----------------------------------------------------

  /** Which steps run at an instant. */
  function Active(tasks: seq<Task>, x: real): set<nat> {
    set t | 0 <= t < |tasks| && tasks[t].start <= x < tasks[t].end
  }

  function Gap(es: seq<Event>, j: nat): real
    requires 0 < j < |es|
  {
    es[j].time - es[j - 1].time
  }

  function Over(x: real, n: nat): real
    requires n > 0
  {
    x / n as real
  }

  /** The part of one gap that falls to a task: the gap over the number of tasks that run in it. */
  function Part(tasks: seq<Task>, es: seq<Event>, j: nat, t: nat): real
    requires 0 < j < |es|
  {
    var a := Active(tasks, es[j - 1].time);
    if t in a then Over(Gap(es, j), |a|) else 0.0
  }

  /** What falls to a task up to the `k`-th event. */
  function Share(tasks: seq<Task>, es: seq<Event>, k: nat, t: nat): real
    requires k <= |es|
  {
    if k <= 1 then 0.0 else Share(tasks, es, k - 1, t) + Part(tasks, es, k - 1, t)
  }

  ghost predicate AreShares(tasks: seq<Task>, es: seq<Event>, weighted: seq<real>) {
    |weighted| == |tasks| && forall t :: 0 <= t < |tasks| ==> weighted[t] == Share(tasks, es, |es|, t)
  }

  /** The time up to the `k`-th event during which some task runs. */
  function Busy(tasks: seq<Task>, es: seq<Event>, k: nat): real
    requires k <= |es|
  {
    if k <= 1 then 0.0
    else Busy(tasks, es, k - 1) + if Active(tasks, es[k - 2].time) != {} then Gap(es, k - 1) else 0.0
  }

  /** The time up to the `k`-th event during which no task runs. */
  function Idle(tasks: seq<Task>, es: seq<Event>, k: nat): real
    requires k <= |es|
  {
    if k <= 1 then 0.0
    else Idle(tasks, es, k - 1) + if Active(tasks, es[k - 2].time) == {} then Gap(es, k - 1) else 0.0
  }

  /** Between two consecutive events the same tasks run at every instant, so the sums above measure
      exactly the times at which some task, or none, or a given task, runs. */
  lemma {:induction false} ActiveConstant(tasks: seq<Task>, es: seq<Event>, j: nat, x: real)
    requires HasEvents(tasks, es) && Ordered(es) && 0 < j < |es| && es[j - 1].time <= x < es[j].time
    ensures Active(tasks, x) == Active(tasks, es[j - 1].time)
  {
    forall t | 0 <= t < |tasks|
      ensures t in Active(tasks, x) <==> t in Active(tasks, es[j - 1].time)
    {
      NoneBetween(tasks, es, j, StartOf(tasks, t));
      NoneBetween(tasks, es, j, StopOf(tasks, t));
    }
  }

  lemma {:induction false} NoneBetween(tasks: seq<Task>, es: seq<Event>, j: nat, e: Event)
    requires Ordered(es) && 0 < j < |es| && e in es
    ensures e.time <= es[j - 1].time || es[j].time <= e.time
  {
    var i :| 0 <= i < |es| && es[i] == e;
    if i < j - 1 {
      assert Before(es[i], es[j - 1]);
    } else if i > j {
      assert Before(es[j], es[i]);
    }
  }

  // ---- Conservation ---------------------------------------------------------------------------

  function SumTo(f: nat -> real, n: nat): real {
    if n == 0 then 0.0 else SumTo(f, n - 1) + f(n - 1)
  }

  lemma {:induction false} SumSplit(f: nat -> real, g: nat -> real, h: nat -> real, n: nat)
    requires forall t: nat :: t < n ==> h(t) == f(t) + g(t)
    ensures SumTo(h, n) == SumTo(f, n) + SumTo(g, n)
  {
    if n == 0 {
    } else {
      SumSplit(f, g, h, n - 1);
    }
  }

  lemma {:induction false} SumZero(f: nat -> real, n: nat)
    requires forall t: nat :: t < n ==> f(t) == 0.0
    ensures SumTo(f, n) == 0.0
  {
    if n == 0 {
    } else {
      SumZero(f, n - 1);
    }
  }

  /** A constant on the members of a set adds up to the constant times the number of members. */
  lemma {:induction false} SumOfSet(a: set<nat>, c: real, f: nat -> real, n: nat)
    requires forall t :: t in a ==> t < n
    requires forall t: nat :: t < n ==> f(t) == if t in a then c else 0.0
    ensures SumTo(f, n) == |a| as real * c
    decreases n
  {
    if n == 0 {
      assert a == {};
    } else if n - 1 in a {
      SumOfSet(a - {n - 1}, c, f, n - 1);
      assert |a| == |a - {n - 1}| + 1;
    } else {
      SumOfSet(a, c, f, n - 1);
    }
  }

  /** One gap is shared out completely, or nobody runs in it. */
  lemma {:induction false} GapShared(tasks: seq<Task>, es: seq<Event>, j: nat)
    requires 0 < j < |es|
    ensures SumTo((t: nat) => Part(tasks, es, j, t), |tasks|) ==
            if Active(tasks, es[j - 1].time) != {} then Gap(es, j) else 0.0
  {
    var a := Active(tasks, es[j - 1].time);
    var f := (t: nat) => Part(tasks, es, j, t);
    if a == {} {
      SumZero(f, |tasks|);
    } else {
      var c := Over(Gap(es, j), |a|);
      SumOfSet(a, c, f, |tasks|);
      assert |a| as real * c == Gap(es, j);
    }
  }

  /** The shares add up to the time during which some task runs. */
  lemma {:induction false} SharesAddUp(tasks: seq<Task>, es: seq<Event>, k: nat)
    requires k <= |es|
    ensures SumTo((t: nat) => Share(tasks, es, k, t), |tasks|) == Busy(tasks, es, k)
  {
    var h := (t: nat) => Share(tasks, es, k, t);
    if k <= 1 {
      SumZero(h, |tasks|);
    } else {
      SharesAddUp(tasks, es, k - 1);
      GapShared(tasks, es, k - 1);
      SumSplit((t: nat) => Share(tasks, es, k - 1, t), (t: nat) => Part(tasks, es, k - 1, t), h, |tasks|);
    }
  }

  /** What is not busy is idle. */
  lemma {:induction false} BusyPlusIdle(tasks: seq<Task>, es: seq<Event>, k: nat)
    requires 0 < k <= |es|
    ensures Busy(tasks, es, k) + Idle(tasks, es, k) == es[k - 1].time - es[0].time
  {
    if k > 1 {
      BusyPlusIdle(tasks, es, k - 1);
    }
  }

  /** How long a task has been running at a given time. */
  function Elapsed(task: Task, x: real): real {
    if x <= task.start then 0.0 else if x < task.end then x - task.start else task.end - task.start
  }

  /** A task's share never exceeds the time it has been running. */
  lemma {:induction false} ShareAtMost(tasks: seq<Task>, es: seq<Event>, k: nat, t: nat)
    requires HasEvents(tasks, es) && Ordered(es) && 0 < k <= |es| && t < |tasks| && tasks[t].start <= tasks[t].end
    ensures 0.0 <= Share(tasks, es, k, t) <= Elapsed(tasks[t], es[k - 1].time)
  {
    if k > 1 {
      ShareAtMost(tasks, es, k - 1, t);
      var a := Active(tasks, es[k - 2].time);
      assert Before(es[k - 2], es[k - 1]);
      if t in a {
        assert |a| > 0;
        AtMost(Gap(es, k - 1), |a|);
        NoneBetween(tasks, es, k - 1, StopOf(tasks, t));
      }
    }
  }

  lemma {:induction false} AtMost(x: real, n: nat)
    requires x >= 0.0 && n > 0
    ensures 0.0 <= x / n as real <= x
  {
    var y := x / n as real;
    assert y * n as real == x;
    assert y * (n - 1) as real >= 0.0;
  }

  // ---- The sweep ------------------------------------------------------------------------------

  /** Steps whose start, and not whose stop, is among the first `k` events. */
  function Running(tasks: seq<Task>, es: seq<Event>, k: nat): set<nat>
    requires k <= |es|
  {
    set t | 0 <= t < |tasks| && StartOf(tasks, t) in es[..k] && StopOf(tasks, t) !in es[..k]
  }

  lemma {:induction false} InPrefix(es: seq<Event>, k: nat, i: nat)
    requires i < k <= |es|
    ensures es[i] in es[..k]
  {
    assert es[..k][i] == es[i];
  }

  lemma {:induction false} SeenBy(es: seq<Event>, k: nat, e: Event)
    requires Ordered(es) && 0 < k <= |es| && e in es
    ensures e in es[..k] ==> e.time <= es[k - 1].time
    ensures e !in es[..k] ==> k < |es| && es[k].time <= e.time
  {
    var i :| 0 <= i < |es| && es[i] == e;
    if i < k {
      InPrefix(es, k, i);
    }
    if e in es[..k] {
      var j :| 0 <= j < k && es[j] == e;
      assert j < k - 1 ==> Before(es[j], es[k - 1]);
    } else {
      assert i > k ==> Before(es[k], es[i]);
    }
  }

  /** The running tasks are the ones that share the next gap. */
  lemma {:induction false} PartOfRunning(tasks: seq<Task>, es: seq<Event>, k: nat, t: nat)
    requires HasEvents(tasks, es) && Ordered(es) && 0 < k < |es| && t < |tasks|
    ensures var running := Running(tasks, es, k);
            Part(tasks, es, k, t) == if t in running then Over(Gap(es, k), |running|) else 0.0
  {
    assert Before(es[k - 1], es[k]);
    var running, active := Running(tasks, es, k), Active(tasks, es[k - 1].time);
    if Gap(es, k) > 0.0 {
      forall u | 0 <= u < |tasks|
        ensures u in running <==> u in active
      {
        SeenBy(es, k, StartOf(tasks, u));
        SeenBy(es, k, StopOf(tasks, u));
      }
      assert running == active;
    }
  }

  function SeqSum(w: seq<real>, n: nat): real
    requires n <= |w|
  {
    if n == 0 then 0.0 else SeqSum(w, n - 1) + w[n - 1]
  }

  lemma {:induction false} SeqSumUpdate(w: seq<real>, t: nat, x: real, n: nat)
    requires t < |w| && n <= |w| && w[t] == 0.0
    ensures SeqSum(w[t := x], n) == SeqSum(w, n) + if t < n then x else 0.0
  {
    if n == 0 {
    } else {
      SeqSumUpdate(w, t, x, n - 1);
    }
  }

  predicate IsTotal(total: real, w: seq<real>) {
    total == SeqSum(w, |w|)
  }

  lemma {:induction false} TotalGrows(w: seq<real>, t: nat, x: real, total: real, total': real)
    requires t < |w| && w[t] == 0.0 && IsTotal(total, w) && total' == total + x
    ensures IsTotal(total', w[t := x])
  {
    SeqSumUpdate(w, t, x, |w|);
  }

  lemma {:induction false} SeqSumZero(w: seq<real>, n: nat)
    requires n <= |w| && forall t :: 0 <= t < n ==> w[t] == 0.0
    ensures SeqSum(w, n) == 0.0
  {
    if n == 0 {
    } else {
      SeqSumZero(w, n - 1);
    }
  }

  lemma {:induction false} SeqSumIs(w: seq<real>, f: nat -> real, n: nat)
    requires n <= |w| && forall t: nat :: t < n ==> w[t] == f(t)
    ensures SeqSum(w, n) == SumTo(f, n)
  {
    if n == 0 {
    } else {
      SeqSumIs(w, f, n - 1);
    }
  }

  ghost predicate Due(tasks: seq<Task>, es: seq<Event>, k: nat, running: map<nat, real>, weighted: seq<real>,
                      clock: real)
    requires k <= |es| && |weighted| == |tasks|
  {
    forall t :: 0 <= t < |tasks| ==>
      Share(tasks, es, k, t) == if t in running then clock - running[t] else weighted[t]
  }

  /** What the sweep has after `k` events: the shares of steps that stopped, and for those that
      run, the weighted time since they started. */
  ghost predicate SweepInv(tasks: seq<Task>, es: seq<Event>, k: nat, running: map<nat, real>, weighted: seq<real>,
                           clock: real)
    requires k <= |es|
  {
    && running.Keys == Running(tasks, es, k) && |weighted| == |tasks|
    && (forall t :: 0 <= t < |tasks| && StopOf(tasks, t) in es[..k] ==> StartOf(tasks, t) in es[..k])
    && (forall t :: 0 <= t < |tasks| && StopOf(tasks, t) in es[..k] ==> tasks[t].start <= tasks[t].end)
    && Due(tasks, es, k, running, weighted, clock)
    && (forall t :: 0 <= t < |tasks| && StopOf(tasks, t) !in es[..k] ==> weighted[t] == 0.0)
  }

  lemma {:induction false} SeenNext(es: seq<Event>, k: nat, e: Event)
    requires NoRepeats(es) && k < |es|
    ensures e in es[..k + 1] <==> e in es[..k] || e == es[k]
    ensures es[k] !in es[..k]
  {
    assert es[..k + 1] == es[..k] + [es[k]];
  }

  /** The weighted clock after some time during which `n` tasks ran. */
  function Ticked(clock: real, elapsed: real, n: nat): real {
    if n > 0 then clock + Over(elapsed, n) else clock
  }

  /** Moving the clock to the next event. */
  lemma {:induction false} Advanced(tasks: seq<Task>, es: seq<Event>, k: nat, running: map<nat, real>,
                                    weighted: seq<real>, elapsed: real, clock: real, clock': real)
    requires HasEvents(tasks, es) && Ordered(es) && k < |es| && SweepInv(tasks, es, k, running, weighted, clock)
    requires k > 0 ==> elapsed == es[k].time - es[k - 1].time
    requires clock' == Ticked(clock, elapsed, |running|)
    ensures Due(tasks, es, k + 1, running, weighted, clock')
  {
    hide HasEvents, Ordered, Part;
    assert |running| == |running.Keys|;
    forall t | 0 <= t < |tasks|
      ensures Share(tasks, es, k + 1, t) == if t in running then clock' - running[t] else weighted[t]
    {
      if k > 0 {
        PartOfRunning(tasks, es, k, t);
      }
    }
  }

  /** A start: that step was not running, has no share yet and starts with the clock. */
  lemma {:induction false} Started(tasks: seq<Task>, es: seq<Event>, k: nat, running: map<nat, real>,
                                   weighted: seq<real>, clock: real, clock': real)
    requires HasEvents(tasks, es) && k < |es| && SweepInv(tasks, es, k, running, weighted, clock) && !es[k].stop
    requires Due(tasks, es, k + 1, running, weighted, clock')
    ensures SweepInv(tasks, es, k + 1, running[es[k].task := clock'], weighted, clock')
  {
    hide Share;
    var u := es[k].task;
    assert IsEvent(tasks, es[k]);
    forall t | 0 <= t < |tasks|
      ensures StopOf(tasks, t) in es[..k + 1] <==> StopOf(tasks, t) in es[..k]
      ensures StartOf(tasks, t) in es[..k + 1] <==> StartOf(tasks, t) in es[..k] || t == u
    {
      SeenNext(es, k, StopOf(tasks, t));
      SeenNext(es, k, StartOf(tasks, t));
    }
    SeenNext(es, k, es[k]);
    assert u !in running && StopOf(tasks, u) !in es[..k];
    assert Running(tasks, es, k + 1) == Running(tasks, es, k) + {u};
  }

  /** A stop of a task that runs. */
  lemma {:induction false} Stopped(tasks: seq<Task>, es: seq<Event>, k: nat, running: map<nat, real>,
                                   weighted: seq<real>, clock: real, clock': real, u: nat, duration: real)
    requires HasEvents(tasks, es) && Ordered(es) && k < |es| && SweepInv(tasks, es, k, running, weighted, clock)
    requires es[k].stop && u == es[k].task && u in running && u < |weighted| && duration == clock' - running[u]
    requires Due(tasks, es, k + 1, running, weighted, clock')
    ensures SweepInv(tasks, es, k + 1, running - {u}, weighted[u := duration], clock')
  {
    hide Share, Ordered, Due;
    assert IsEvent(tasks, es[k]);
    AllInOrder(tasks, es, u, k);
    DueStopped(tasks, es, k + 1, running, weighted, clock', u, duration);
    StopSeen(tasks, es, k);
  }

  lemma {:induction false} DueStopped(tasks: seq<Task>, es: seq<Event>, k: nat, running: map<nat, real>,
                                      weighted: seq<real>, clock: real, u: nat, duration: real)
    requires k <= |es| && |weighted| == |tasks| && Due(tasks, es, k, running, weighted, clock)
    requires u in running && u < |weighted| && duration == clock - running[u]
    ensures Due(tasks, es, k, running - {u}, weighted[u := duration], clock)
  {
    hide Share;
  }

  lemma {:induction false} StopSeen(tasks: seq<Task>, es: seq<Event>, k: nat)
    requires HasEvents(tasks, es) && k < |es| && es[k].stop
    ensures forall t :: 0 <= t < |tasks| ==>
              (StopOf(tasks, t) in es[..k + 1] <==> StopOf(tasks, t) in es[..k] || t == es[k].task)
    ensures forall t :: 0 <= t < |tasks| ==> (StartOf(tasks, t) in es[..k + 1] <==> StartOf(tasks, t) in es[..k])
    ensures Running(tasks, es, k + 1) == Running(tasks, es, k) - {es[k].task}
  {
    assert IsEvent(tasks, es[k]);
    forall t | 0 <= t < |tasks|
      ensures StopOf(tasks, t) in es[..k + 1] <==> StopOf(tasks, t) in es[..k] || t == es[k].task
      ensures StartOf(tasks, t) in es[..k + 1] <==> StartOf(tasks, t) in es[..k]
    {
      SeenNext(es, k, StopOf(tasks, t));
      SeenNext(es, k, StartOf(tasks, t));
    }
  }

  /** A stop that finds its task not running belongs to a task that ends before it starts. */
  lemma {:induction false} StopFacts(tasks: seq<Task>, es: seq<Event>, k: nat, running: map<nat, real>,
                                     weighted: seq<real>, clock: real)
    requires HasEvents(tasks, es) && Ordered(es) && k < |es| && es[k].stop
    requires SweepInv(tasks, es, k, running, weighted, clock)
    ensures var u := es[k].task; u < |tasks| && weighted[u] == 0.0 && (u !in running ==> tasks[u].end < tasks[u].start)
  {
    hide Share;
    var u := es[k].task;
    assert IsEvent(tasks, es[k]);
    SeenNext(es, k, es[k]);
    var i :| 0 <= i < |es| && es[i] == StartOf(tasks, u);
    assert i < k ==> es[..k][i] == es[i];
    assert u !in running ==> i > k && Before(es[k], es[i]);
  }

  lemma {:induction false} SweepStarts(tasks: seq<Task>, es: seq<Event>, weighted: seq<real>)
    requires |weighted| == |tasks| && forall t :: 0 <= t < |tasks| ==> weighted[t] == 0.0
    ensures SweepInv(tasks, es, 0, map[], weighted, 0.0)
  {
  }

  /** At the end nothing runs. */
  lemma {:induction false} SweepEnds(tasks: seq<Task>, es: seq<Event>, running: map<nat, real>, weighted: seq<real>,
                                     clock: real)
    requires HasEvents(tasks, es) && SweepInv(tasks, es, |es|, running, weighted, clock)
    ensures running == map[] && InOrder(tasks)
    ensures AreShares(tasks, es, weighted)
  {
    hide Share;
    assert es[..|es|] == es;
    assert running.Keys == {};
  }

  /** When every stop came after its start, every task ends no earlier than it starts. */
  lemma {:induction false} AllInOrder(tasks: seq<Task>, es: seq<Event>, t: nat, k: nat)
    requires HasEvents(tasks, es) && Ordered(es) && k < |es| && t < |tasks|
    requires es[k] == StopOf(tasks, t) && StartOf(tasks, t) in es[..k]
    ensures tasks[t].start <= tasks[t].end
  {
    var i :| 0 <= i < k && es[i] == StartOf(tasks, t);
    assert Before(es[i], es[k]);
  }

  lemma {:induction false} TotalIsBusy(tasks: seq<Task>, es: seq<Event>, weighted: seq<real>, total: real)
    requires |weighted| == |tasks| && AreShares(tasks, es, weighted)
    requires IsTotal(total, weighted)
    ensures total == Busy(tasks, es, |es|)
  {
    SharesAddUp(tasks, es, |es|);
    SeqSumIs(weighted, (t: nat) => Share(tasks, es, |es|, t), |tasks|);
  }

  /** The loop over the events in order. */
  method Sweep(tasks: seq<Task>, es: seq<Event>) returns (r: Swept)
    requires HasEvents(tasks, es) && Ordered(es) && es != []
    ensures r.Swept? <==> InOrder(tasks)
    ensures r.Swept? ==> |r.weighted| == |tasks| && r.total == Busy(tasks, es, |es|)
    ensures r.Swept? ==> AreShares(tasks, es, r.weighted)
  {
    var weighted: seq<real>, total := seq(|tasks|, _ => 0.0), 0.0;
    var running: map<nat, real> := map[];
    var last, clock := es[0].time, 0.0;
    SeqSumZero(weighted, |tasks|);
    hide HasEvents, Ordered, Share, Busy, Ticked, IsTotal, Due, SweepInv, Running;
    SweepStarts(tasks, es, weighted);
    for k := 0 to |es|
      invariant SweepInv(tasks, es, k, running, weighted, clock)
      invariant k > 0 ==> last == es[k - 1].time
      invariant |weighted| == |tasks| && IsTotal(total, weighted)
    {
      var e := es[k];
      ghost var before := clock;
      var elapsed := e.time - last;
      clock := Ticked(clock, elapsed, |running|);
      Advanced(tasks, es, k, running, weighted, elapsed, before, clock);
      if !e.stop {
        Started(tasks, es, k, running, weighted, before, clock);
        running := running[e.task := clock];
      } else {
        StopFacts(tasks, es, k, running, weighted, before);
        if e.task !in running {
          return NotRunning;
        }
        var task, duration := e.task, clock - running[e.task];
        Stopped(tasks, es, k, running, weighted, before, clock, task, duration);
        ghost var sum := total;
        total := total + duration;
        TotalGrows(weighted, task, duration, sum, total);
        weighted := weighted[task := duration];
        running := running - {task};
      }
      last := e.time;
    }
    SweepEnds(tasks, es, running, weighted, clock);
    TotalIsBusy(tasks, es, weighted, total);
    assert |running| == 0;
    r := Swept(weighted, total);
  }

  // ---- The events of all tasks, in order ------------------------------------------------------

  /** The first loop: two events per task, and the earliest start and latest end. */
  method Collect(tasks: seq<Task>) returns (es: seq<Event>, earliest: real, latest: real)
    requires tasks != []
    ensures HasEvents(tasks, es) && es != []
    ensures NonNegative(tasks) && InOrder(tasks) ==> IsSpan(tasks, earliest, latest)
  {
    es, earliest, latest := [], -1.0, 0.0;
    for i := 0 to |tasks|
      invariant |es| == 2 * i && NoRepeats(es)
      invariant forall j :: 0 <= j < |es| ==> IsEvent(tasks, es[j]) && es[j].task < i
      invariant forall t :: 0 <= t < i ==> StartOf(tasks, t) in es
      invariant forall t :: 0 <= t < i ==> StopOf(tasks, t) in es
      invariant NonNegative(tasks) && InOrder(tasks) && i > 0 ==>
                  IsSpan(tasks[..i], earliest, latest)
      invariant i == 0 ==> earliest == -1.0 && latest == 0.0
    {
      ghost var e0, l0 := earliest, latest;
      if earliest < 0.0 || tasks[i].start < earliest {
        earliest := tasks[i].start;
      }
      if tasks[i].end > latest {
        latest := tasks[i].end;
      }
      SpanNext(tasks, i, e0, l0, earliest, latest);
      ghost var before := es;
      es := es + [StartOf(tasks, i), StopOf(tasks, i)];
      AppendKeeps(tasks, before, i);
    }
    assert tasks[..|tasks|] == tasks;
  }

  lemma {:induction false} AppendKeeps(tasks: seq<Task>, es: seq<Event>, i: nat)
    requires i < |tasks| && NoRepeats(es) && forall j :: 0 <= j < |es| ==> IsEvent(tasks, es[j]) && es[j].task < i
    ensures var r := es + [StartOf(tasks, i), StopOf(tasks, i)];
            && NoRepeats(r) && r[|es|] == StartOf(tasks, i) && r[|es| + 1] == StopOf(tasks, i)
            && (forall e :: e in es ==> e in r)
            && forall j :: 0 <= j < |r| ==> IsEvent(tasks, r[j]) && r[j].task < i + 1
  {
  }

  /** The earliest start and the latest end. */
  ghost predicate IsSpan(tasks: seq<Task>, earliest: real, latest: real) {
    && (forall t :: 0 <= t < |tasks| ==> earliest <= tasks[t].start && tasks[t].end <= latest)
    && (exists t :: 0 <= t < |tasks| && tasks[t].start == earliest)
    && (exists t :: 0 <= t < |tasks| && tasks[t].end == latest)
  }

  lemma {:induction false} SpanNext(tasks: seq<Task>, i: nat, e: real, l: real, e': real, l': real)
    requires i < |tasks|
    requires e' == if e < 0.0 || tasks[i].start < e then tasks[i].start else e
    requires l' == if tasks[i].end > l then tasks[i].end else l
    requires i == 0 ==> e == -1.0 && l == 0.0
    requires NonNegative(tasks) && InOrder(tasks) && i > 0 ==> IsSpan(tasks[..i], e, l)
    ensures NonNegative(tasks) && InOrder(tasks) ==> IsSpan(tasks[..i + 1], e', l')
  {
    if NonNegative(tasks) && InOrder(tasks) {
      var old_, new_ := tasks[..i], tasks[..i + 1];
      assert new_[i] == tasks[i] && forall t :: 0 <= t < i ==> new_[t] == old_[t];
      if i > 0 {
        var a :| 0 <= a < i && old_[a].start == e;
        var b :| 0 <= b < i && old_[b].end == l;
        assert new_[a].start == e && new_[b].end == l;
      }
    }
  }

  /** The span runs from the first event to the last. */
  lemma {:induction false} SpanIs(tasks: seq<Task>, es: seq<Event>, earliest: real, latest: real)
    requires HasEvents(tasks, es) && Ordered(es) && es != [] && IsSpan(tasks, earliest, latest)
    requires InOrder(tasks)
    ensures earliest == es[0].time && latest == es[|es| - 1].time
  {
    var first, last := es[0], es[|es| - 1];
    assert IsEvent(tasks, first) && IsEvent(tasks, last);
    var a :| 0 <= a < |tasks| && tasks[a].start == earliest;
    var b :| 0 <= b < |tasks| && tasks[b].end == latest;
    SeenBy(es, 1, StartOf(tasks, a));
    SeenBy(es, |es|, StopOf(tasks, b));
    assert es[..1] == [first] && es[..|es|] == es;
  }

  ghost predicate SameElements(es: seq<Event>, fs: seq<Event>) {
    forall e :: e in es <==> e in fs
  }

  /** A stable sort by time and kind, of events that do not repeat. */
  method Sort(events: seq<Event>) returns (es: seq<Event>)
    requires NoRepeats(events)
    ensures Ordered(es) && NoRepeats(es) && SameElements(es, events) && |es| == |events|
  {
    es := [];
    for i := 0 to |events|
      invariant Ordered(es) && NoRepeats(es) && SameElements(es, events[..i]) && |es| == i
    {
      var e, p := events[i], |es|;
      hide Ordered, SameElements;
      while p > 0 && !Before(es[p - 1], e)
        invariant 0 <= p <= |es| && forall j :: p <= j < |es| ==> !Before(es[j], e)
      {
        p := p - 1;
      }
      SeenNext(events, i, e);
      ElementsNext(events, i, es, p);
      hide NoRepeats;
      InsertedOrdered(es, e, p);
      es := InsertAt(es, e, p);
    }
    assert events[..|events|] == events;
  }

  lemma {:induction false} ElementsNext(events: seq<Event>, i: nat, es: seq<Event>, p: nat)
    requires i < |events| && p <= |es| && SameElements(es, events[..i]) && events[i] !in events[..i]
    ensures SameElements(InsertAt(es, events[i], p), events[..i + 1]) && events[i] !in es
  {
    assert es == es[..p] + es[p..];
    assert events[..i + 1] == events[..i] + [events[i]];
  }

  function InsertAt(es: seq<Event>, e: Event, p: nat): (r: seq<Event>)
    requires p <= |es|
    ensures |r| == |es| + 1
    ensures forall k :: 0 <= k < |r| ==> r[k] == if k < p then es[k] else if k == p then e else es[k - 1]
  {
    es[..p] + [e] + es[p..]
  }

  lemma {:induction false} InsertedOrdered(es: seq<Event>, e: Event, p: nat)
    requires Ordered(es) && p <= |es| && (p > 0 ==> Before(es[p - 1], e))
    requires forall j :: p <= j < |es| ==> !Before(es[j], e)
    ensures Ordered(InsertAt(es, e, p))
    ensures NoRepeats(es) && e !in es ==> NoRepeats(InsertAt(es, e, p))
  {
    var r := InsertAt(es, e, p);
    hide InsertAt;
    forall i, j | 0 <= i < j < |r|
      ensures Before(r[i], r[j]) && (NoRepeats(es) && e !in es ==> r[i] != r[j])
    {
      if j == p {
        assert i < p - 1 ==> Before(es[i], es[p - 1]);
      } else if i != p {
        assert Before(es[if i < p then i else i - 1], es[if j < p then j else j - 1]);
      }
    }
  }

  /** Sorting keeps the events. */
  lemma {:induction false} SameEvents(tasks: seq<Task>, events: seq<Event>, es: seq<Event>)
    requires HasEvents(tasks, events) && SameElements(es, events) && NoRepeats(es)
    ensures HasEvents(tasks, es)
  {
    assert forall i :: 0 <= i < |es| ==> es[i] in events;
  }

  // ---- The whole summary ----------------------------------------------------------------------

  /** What `SummarizeEntries` computes from the events in order. */
  ghost predicate Summarizes(tasks: seq<Task>, es: seq<Event>, r: Summary)
    requires r.Summary?
  {
    && HasEvents(tasks, es) && Ordered(es) && |r.weighted| == |tasks|
    && r.total == Busy(tasks, es, |es|)
    && AreShares(tasks, es, r.weighted)
    && (forall t :: 0 <= t < |tasks| ==> 0.0 <= r.weighted[t] <= tasks[t].end - tasks[t].start)
    && (NonNegative(tasks) ==> r.length - r.total == Idle(tasks, es, |es|))
  }

  /** The weighted durations add up to the time during which some task runs; what is left of the
      length is the time during which none runs; and no weighted duration exceeds the step's own. */
  method SummarizeEntries(tasks: seq<Task>) returns (r: Summary)
    ensures r.NoEntries? <==> tasks == []
    ensures r.Summary? <==> tasks != [] && InOrder(tasks)
    ensures r.Summary? ==> exists es :: Summarizes(tasks, es, r)
  {
    if tasks == [] {
      return NoEntries;
    }
    var events, earliest, latest := Collect(tasks);
    var es := Sort(events);
    SameEvents(tasks, events, es);
    var swept := Sweep(tasks, es);
    if swept.NotRunning? {
      return KeyError;
    }
    r := Summary(swept.weighted, swept.total, latest - earliest);
    SummaryHolds(tasks, es, earliest, latest, r);
  }

  lemma {:induction false} SummaryHolds(tasks: seq<Task>, es: seq<Event>, earliest: real, latest: real, r: Summary)
    requires HasEvents(tasks, es) && Ordered(es) && es != []
    requires InOrder(tasks)
    requires NonNegative(tasks) && InOrder(tasks) ==> IsSpan(tasks, earliest, latest)
    requires r.Summary? && |r.weighted| == |tasks| && r.total == Busy(tasks, es, |es|) && r.length == latest - earliest
    requires AreShares(tasks, es, r.weighted)
    ensures Summarizes(tasks, es, r)
  {
    hide Share, Busy, Idle, HasEvents, Ordered;
    forall t | 0 <= t < |tasks|
      ensures 0.0 <= r.weighted[t] <= tasks[t].end - tasks[t].start
    {
      ShareAtMost(tasks, es, |es|, t);
      LastIsPast(tasks, es, t);
    }
    BusyPlusIdle(tasks, es, |es|);
    if NonNegative(tasks) {
      SpanIs(tasks, es, earliest, latest);
    }
  }

  lemma {:induction false} LastIsPast(tasks: seq<Task>, es: seq<Event>, t: nat)
    requires HasEvents(tasks, es) && Ordered(es) && es != [] && t < |tasks|
    ensures tasks[t].end <= es[|es| - 1].time
  {
    SeenBy(es, |es|, StopOf(tasks, t));
    assert es[..|es|] == es;
  }
}
