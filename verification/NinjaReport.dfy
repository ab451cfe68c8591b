/** The log reader followed by the sweep (tools/report_build_time_ninja.py): what is reported of a log. */
module NinjaReport {
  import opened NinjaLog
  import Sweep = NinjaSweep

  datatype Report = Report(summary: Sweep.Summary) | Unread(result: Result)

  /** Milliseconds of the log in seconds. */
  function Seconds(ms: int): real {
    ms as real / 1000.0
  }

  function TasksOf(targets: seq<Target>): (tasks: seq<Sweep.Task>)
    ensures |tasks| == |targets|
  {
    seq(|targets|, i requires 0 <= i < |targets| =>
      Sweep.Task(Seconds(targets[i].start), Seconds(targets[i].end)))
  }

  /** The records of the last build. */
  function LastBuild(lines: seq<Line>): seq<Record> {
    Kept(Records(lines, |lines|), false)
  }

  predicate RunsAt(r: Record, x: real) {
    Seconds(r.start) <= x < Seconds(r.end)
  }

  ghost predicate SomeRuns(rs: seq<Record>, x: real) {
    exists i :: 0 <= i < |rs| && RunsAt(rs[i], x)
  }

  predicate NoneBackwards(rs: seq<Record>) {
    forall i :: 0 <= i < |rs| ==> rs[i].start <= rs[i].end
  }

  /** The time up to the `k`-th event during which some record's step runs. */
  ghost function BusyTime(rs: seq<Record>, es: seq<Sweep.Event>, k: nat): real
    requires k <= |es|
  {
    if k <= 1 then 0.0
    else BusyTime(rs, es, k - 1) + if SomeRuns(rs, es[k - 2].time) then Sweep.Gap(es, k - 1) else 0.0
  }

  /** Every target has the times of some record. */
  lemma {:induction false} RecordOfTarget(rs: seq<Record>, k: nat) returns (i: nat)
    requires k < |Grouping(rs)|
    ensures i < |rs| && Grouping(rs)[k].start == rs[i].start && Grouping(rs)[k].end == rs[i].end
  {
    hide First, NamesOf, Hashes;
    HashesAre(rs, Hashes(rs)[k]);
    i := First(rs, Hashes(rs)[k]);
  }

  lemma {:induction false} TargetTimes(rs: seq<Record>, i: nat) returns (k: nat)
    requires i < |Kept(rs, false)|
    ensures var targets := Grouping(Kept(rs, false));
            && k < |targets| && targets[k].start == Kept(rs, false)[i].start
            && targets[k].end == Kept(rs, false)[i].end
  {
    hide *;
    k := TargetOfRecord(rs, i);
  }

  /** Some target runs exactly when some record of the last build does. */
  lemma {:induction false} ActiveIff(rs: seq<Record>, x: real)
    ensures Sweep.Active(TasksOf(Grouping(Kept(rs, false))), x) != {} <==> SomeRuns(Kept(rs, false), x)
  {
    hide Grouping, Kept, Seconds;
    var kept := Kept(rs, false);
    var tasks := TasksOf(Grouping(kept));
    if t :| t in Sweep.Active(tasks, x) {
      var i := RecordOfTarget(kept, t);
      assert RunsAt(kept[i], x);
    }
    if i :| 0 <= i < |kept| && RunsAt(kept[i], x) {
      var k := TargetTimes(rs, i);
      assert k in Sweep.Active(tasks, x);
    }
  }

  lemma {:induction false} BusyIs(rs: seq<Record>, es: seq<Sweep.Event>, k: nat)
    requires k <= |es|
    ensures Sweep.Busy(TasksOf(Grouping(Kept(rs, false))), es, k) == BusyTime(Kept(rs, false), es, k)
  {
    hide Grouping, Kept, TasksOf, SomeRuns, Sweep.Active, Sweep.Gap;
    if k > 1 {
      BusyIs(rs, es, k - 1);
      ActiveIff(rs, es[k - 2].time);
    }
  }

  lemma {:induction false} KeptSome(rs: seq<Record>)
    ensures Kept(rs, false) == [] <==> rs == []
  {
    hide NewBuild;
  }

  /** No target ends before it starts exactly when no record of the last build does, and there is a target exactly
      when there is a record. */
  lemma {:induction false} InOrderIff(rs: seq<Record>)
    ensures var kept := Kept(rs, false); var tasks := TasksOf(Grouping(kept));
            && (Sweep.InOrder(tasks) <==> NoneBackwards(kept)) && (tasks == [] <==> rs == [])
            && (rs == [] ==> NoneBackwards(kept))
  {
    hide Grouping, Kept;
    var kept := Kept(rs, false);
    KeptSome(rs);
    var tasks := TasksOf(Grouping(kept));
    if kept != [] {
      var k := TargetTimes(rs, 0);
    }
    if tasks != [] {
      var i := RecordOfTarget(kept, 0);
    }
    if NoneBackwards(kept) {
      forall t | 0 <= t < |tasks|
        ensures tasks[t].start <= tasks[t].end
      {
        var i := RecordOfTarget(kept, t);
      }
    }
    if Sweep.InOrder(tasks) {
      forall i | 0 <= i < |kept|
        ensures kept[i].start <= kept[i].end
      {
        var k := TargetTimes(rs, i);
        assert tasks[k].start <= tasks[k].end;
      }
    }
  }

  // ---- Whole milliseconds ---------------------------------------------------------------------

  predicate RunsInMs(r: Record, ms: int) {
    r.start <= ms < r.end
  }

  /** The milliseconds in which some record's step runs. */
  ghost function BusyMs(rs: seq<Record>): set<int> {
    set i, ms | 0 <= i < |rs| && rs[i].start <= ms < rs[i].end && RunsInMs(rs[i], ms) :: ms
  }

  /** How many of them there are from `lo` to `hi`. */
  ghost function CountBusy(rs: seq<Record>, lo: int, hi: int): nat
    decreases hi - lo
  {
    if lo >= hi then 0 else CountBusy(rs, lo, hi - 1) + if hi - 1 in BusyMs(rs) then 1 else 0
  }

  ghost function BusyBetween(rs: seq<Record>, lo: int, hi: int): set<int> {
    set ms | ms in BusyMs(rs) && lo <= ms < hi
  }

  lemma {:induction false} CountIs(rs: seq<Record>, lo: int, hi: int)
    ensures CountBusy(rs, lo, hi) == |BusyBetween(rs, lo, hi)|
    decreases hi - lo
  {
    hide BusyMs;
    if lo >= hi {
      assert BusyBetween(rs, lo, hi) == {};
    } else {
      CountIs(rs, lo, hi - 1);
      assert BusyBetween(rs, lo, hi) ==
             BusyBetween(rs, lo, hi - 1) + if hi - 1 in BusyMs(rs) then {hi - 1} else {};
    }
  }

  /** A stretch in which steps run throughout, or not at all. */
  lemma {:induction false} CountStretch(rs: seq<Record>, lo: int, a: int, b: int, busy: bool)
    requires lo <= a <= b && forall ms :: a <= ms < b ==> (ms in BusyMs(rs) <==> busy)
    ensures CountBusy(rs, lo, b) == CountBusy(rs, lo, a) + if busy then b - a else 0
    decreases b - a
  {
    hide BusyMs;
    if a < b {
      CountStretch(rs, lo, a, b - 1, busy);
    }
  }

  /** The millisecond of a time of the log. */
  function Ms(x: real): int {
    (x * 1000.0).Floor
  }

  lemma {:induction false} MsIs(ms: int)
    ensures Seconds(ms) * 1000.0 == ms as real && Ms(Seconds(ms)) == ms
  {
    assert Seconds(ms) * 1000.0 == ms as real;
  }

  lemma {:induction false} SecondsOrder(a: int, b: int)
    ensures Seconds(a) <= Seconds(b) <==> a <= b
  {
    MsIs(a);
    MsIs(b);
    hide Seconds;
  }

  lemma {:induction false} RunsIff(rs: seq<Record>, ms: int)
    ensures SomeRuns(rs, Seconds(ms)) <==> ms in BusyMs(rs)
  {
    hide Seconds;
    forall i | 0 <= i < |rs|
      ensures RunsAt(rs[i], Seconds(ms)) <==> RunsInMs(rs[i], ms)
    {
      SecondsOrder(rs[i].start, ms);
      SecondsOrder(rs[i].end, ms);
    }
    if i :| 0 <= i < |rs| && RunsAt(rs[i], Seconds(ms)) {
      assert RunsInMs(rs[i], ms);
    }
  }

  /** Events are at whole milliseconds. */
  lemma {:induction false} EventMs(targets: seq<Target>, es: seq<Sweep.Event>, j: nat)
    requires Sweep.HasEvents(TasksOf(targets), es) && j < |es|
    ensures Seconds(Ms(es[j].time)) == es[j].time && es[j].time * 1000.0 == Ms(es[j].time) as real
  {
    hide Seconds, Ms, Sweep.NoRepeats;
    var tasks, e := TasksOf(targets), es[j];
    assert Sweep.IsEvent(tasks, e);
    var ms := if e.stop then targets[e.task].end else targets[e.task].start;
    assert e.time == Seconds(ms);
    MsIs(ms);
  }

  /** Between two events the same milliseconds are busy. */
  lemma {:induction false} GapMs(rs: seq<Record>, es: seq<Sweep.Event>, j: nat, ms: int)
    requires Sweep.HasEvents(TasksOf(Grouping(Kept(rs, false))), es) && Sweep.Ordered(es) && 0 < j < |es|
    requires Ms(es[j - 1].time) <= ms < Ms(es[j].time)
    ensures ms in BusyMs(Kept(rs, false)) <==> SomeRuns(Kept(rs, false), es[j - 1].time)
  {
    hide Kept, Grouping, Seconds, Ms, BusyMs, SomeRuns, Sweep.HasEvents, Sweep.Ordered, TasksOf, Sweep.Active;
    var kept := Kept(rs, false);
    var tasks := TasksOf(Grouping(kept));
    EventMs(Grouping(kept), es, j - 1);
    EventMs(Grouping(kept), es, j);
    SecondsOrder(Ms(es[j - 1].time), ms);
    SecondsOrder(Ms(es[j].time), ms);
    Sweep.ActiveConstant(tasks, es, j, Seconds(ms));
    ActiveIff(rs, Seconds(ms));
    ActiveIff(rs, es[j - 1].time);
    RunsIff(kept, ms);
  }

  lemma {:induction false} EventsOrdered(es: seq<Sweep.Event>, i: nat, j: nat)
    requires Sweep.Ordered(es) && i <= j < |es|
    ensures es[i].time <= es[j].time
  {
    assert i < j ==> Sweep.Before(es[i], es[j]);
  }

  /** The busy time up to an event, in milliseconds. */
  lemma {:induction false} BusyTimeMs(rs: seq<Record>, es: seq<Sweep.Event>, k: nat)
    requires Sweep.HasEvents(TasksOf(Grouping(Kept(rs, false))), es) && Sweep.Ordered(es) && 0 < k <= |es|
    ensures BusyTime(Kept(rs, false), es, k) * 1000.0 ==
            CountBusy(Kept(rs, false), Ms(es[0].time), Ms(es[k - 1].time)) as real
  {
    hide Kept, Grouping, Ms, BusyMs, SomeRuns, Sweep.HasEvents, Sweep.Ordered, TasksOf, CountBusy;
    var kept := Kept(rs, false);
    if k == 1 {
      CountIs(kept, Ms(es[0].time), Ms(es[0].time));
      assert BusyBetween(kept, Ms(es[0].time), Ms(es[0].time)) == {};
    } else {
      BusyTimeMs(rs, es, k - 1);
      var lo, a, b := Ms(es[0].time), Ms(es[k - 2].time), Ms(es[k - 1].time);
      EventMs(Grouping(kept), es, 0);
      EventMs(Grouping(kept), es, k - 2);
      EventMs(Grouping(kept), es, k - 1);
      EventsOrdered(es, 0, k - 2);
      EventsOrdered(es, k - 2, k - 1);
      var busy := SomeRuns(kept, es[k - 2].time);
      forall ms | a <= ms < b
        ensures ms in BusyMs(kept) <==> busy
      {
        GapMs(rs, es, k - 1, ms);
      }
      CountStretch(kept, lo, a, b, busy);
    }
  }

  /** Every busy millisecond lies between the first event and the last. */
  lemma {:induction false} BusyInside(rs: seq<Record>, es: seq<Sweep.Event>, ms: int)
    requires Sweep.HasEvents(TasksOf(Grouping(Kept(rs, false))), es) && Sweep.Ordered(es) && es != []
    requires ms in BusyMs(Kept(rs, false))
    ensures Ms(es[0].time) <= ms < Ms(es[|es| - 1].time)
  {
    hide Kept, Grouping, Seconds, Ms, TasksOf, Sweep.HasEvents, Sweep.Ordered;
    var kept := Kept(rs, false);
    var i := SomeBusy(kept, ms);
    var k := TargetTimes(rs, i);
    var targets := Grouping(kept);
    var first, last := Ms(es[0].time), Ms(es[|es| - 1].time);
    EventMs(targets, es, 0);
    EventMs(targets, es, |es| - 1);
    TargetEvents(targets, es, k);
    SecondsOrder(first, kept[i].start);
    SecondsOrder(kept[i].end, last);
  }

  lemma {:induction false} SomeBusy(rs: seq<Record>, ms: int) returns (i: nat)
    requires ms in BusyMs(rs)
    ensures i < |rs| && rs[i].start <= ms < rs[i].end
  {
    var k :| 0 <= k < |rs| && rs[k].start <= ms < rs[k].end && RunsInMs(rs[k], ms);
    i := k;
  }

  lemma {:induction false} TargetEvents(targets: seq<Target>, es: seq<Sweep.Event>, k: nat)
    requires Sweep.HasEvents(TasksOf(targets), es) && Sweep.Ordered(es) && es != [] && k < |targets|
    ensures es[0].time <= Seconds(targets[k].start) && Seconds(targets[k].end) <= es[|es| - 1].time
  {
    hide Seconds, Sweep.Ordered, Sweep.NoRepeats;
    var tasks := TasksOf(targets);
    EventInside(es, Sweep.StartOf(tasks, k));
    EventInside(es, Sweep.StopOf(tasks, k));
  }

  lemma {:induction false} EventInside(es: seq<Sweep.Event>, e: Sweep.Event)
    requires Sweep.Ordered(es) && e in es
    ensures es[0].time <= e.time <= es[|es| - 1].time
  {
    hide Sweep.Ordered;
    var i :| 0 <= i < |es| && es[i] == e;
    EventsOrdered(es, 0, i);
    EventsOrdered(es, i, |es| - 1);
  }

  lemma {:induction false} TotalMs(rs: seq<Record>, es: seq<Sweep.Event>)
    requires Sweep.HasEvents(TasksOf(Grouping(Kept(rs, false))), es) && Sweep.Ordered(es) && es != []
    ensures BusyTime(Kept(rs, false), es, |es|) * 1000.0 == |BusyMs(Kept(rs, false))| as real
  {
    hide Kept, Grouping, Ms, BusyMs, BusyTime, Sweep.HasEvents, Sweep.Ordered, TasksOf, CountBusy;
    var kept := Kept(rs, false);
    var lo, hi := Ms(es[0].time), Ms(es[|es| - 1].time);
    BusyTimeMs(rs, es, |es|);
    CountIs(kept, lo, hi);
    forall ms | ms in BusyMs(kept)
      ensures lo <= ms < hi
    {
      BusyInside(rs, es, ms);
    }
    assert BusyBetween(kept, lo, hi) == BusyMs(kept);
  }

  // ---- Weighted durations ---------------------------------------------------------------------

  /** The targets that run in a millisecond. */
  function RunningIn(targets: seq<Target>, ms: int): set<nat> {
    set k | 0 <= k < |targets| && targets[k].start <= ms < targets[k].end
  }

  /** What a millisecond counts for target `t`: an equal part of it for each target that runs. */
  function WeightIn(targets: seq<Target>, t: nat, ms: int): real {
    var running := RunningIn(targets, ms);
    if t in running then 1.0 / |running| as real else 0.0
  }

  /** What the milliseconds from `lo` to `hi` count for target `t`. */
  function WeightBetween(targets: seq<Target>, t: nat, lo: int, hi: int): real
    decreases hi - lo
  {
    if lo >= hi then 0.0 else WeightBetween(targets, t, lo, hi - 1) + WeightIn(targets, t, hi - 1)
  }

  lemma {:induction false} ActiveIn(targets: seq<Target>, ms: int)
    ensures Sweep.Active(TasksOf(targets), Seconds(ms)) == RunningIn(targets, ms)
  {
    hide Seconds;
    forall k | 0 <= k < |targets|
      ensures k in Sweep.Active(TasksOf(targets), Seconds(ms)) <==> k in RunningIn(targets, ms)
    {
      SecondsOrder(targets[k].start, ms);
      SecondsOrder(targets[k].end, ms);
    }
  }

  /** A stretch in which every millisecond counts the same. */
  lemma {:induction false} WeightStretch(targets: seq<Target>, t: nat, lo: int, a: int, b: int, w: real)
    requires lo <= a <= b && forall ms :: a <= ms < b ==> WeightIn(targets, t, ms) == w
    ensures WeightBetween(targets, t, lo, b) == WeightBetween(targets, t, lo, a) + (b - a) as real * w
    decreases b - a
  {
    hide WeightIn;
    if a < b {
      WeightStretch(targets, t, lo, a, b - 1, w);
      assert (b - 1 - a) as real * w + w == (b - a) as real * w;
    }
  }

  /** The weight of one millisecond between two events. */
  lemma {:induction false} GapWeight(targets: seq<Target>, es: seq<Sweep.Event>, j: nat, t: nat, ms: int)
    requires Sweep.HasEvents(TasksOf(targets), es) && Sweep.Ordered(es) && 0 < j < |es|
    requires Ms(es[j - 1].time) <= ms < Ms(es[j].time)
    ensures WeightIn(targets, t, ms) == EventWeight(targets, es, j, t)
  {
    hide Seconds, Ms, Sweep.HasEvents, Sweep.Ordered, TasksOf, Sweep.Active, RunningIn;
    EventMs(targets, es, j - 1);
    EventMs(targets, es, j);
    SecondsOrder(Ms(es[j - 1].time), ms);
    SecondsOrder(Ms(es[j].time), ms);
    Sweep.ActiveConstant(TasksOf(targets), es, j, Seconds(ms));
    ActiveIn(targets, ms);
  }

  function EventWeight(targets: seq<Target>, es: seq<Sweep.Event>, j: nat, t: nat): real
    requires 0 < j < |es|
  {
    var running := Sweep.Active(TasksOf(targets), es[j - 1].time);
    if t in running then 1.0 / |running| as real else 0.0
  }

  lemma {:induction false} PartMs(targets: seq<Target>, es: seq<Sweep.Event>, j: nat, t: nat)
    requires Sweep.HasEvents(TasksOf(targets), es) && 0 < j < |es|
    ensures Sweep.Part(TasksOf(targets), es, j, t) * 1000.0 ==
            (Ms(es[j].time) - Ms(es[j - 1].time)) as real * EventWeight(targets, es, j, t)
  {
    hide Ms, Sweep.HasEvents, TasksOf, Sweep.Active;
    EventMs(targets, es, j - 1);
    EventMs(targets, es, j);
    var running := Sweep.Active(TasksOf(targets), es[j - 1].time);
    var gap := Sweep.Gap(es, j);
    assert gap * 1000.0 == (Ms(es[j].time) - Ms(es[j - 1].time)) as real;
    if t in running {
      assert |running| > 0;
      Spread(gap, |running| as real, (Ms(es[j].time) - Ms(es[j - 1].time)) as real);
    }
  }

  lemma {:induction false} Spread(gap: real, n: real, ms: real)
    requires n > 0.0 && gap * 1000.0 == ms
    ensures gap / n * 1000.0 == ms * (1.0 / n)
  {
    var x, y := gap / n, 1.0 / n;
    assert x * n == gap && y * n == 1.0;
    assert x == gap * y;
  }

  /** A share up to an event, in milliseconds. */
  lemma {:induction false} ShareMs(targets: seq<Target>, es: seq<Sweep.Event>, k: nat, t: nat)
    requires Sweep.HasEvents(TasksOf(targets), es) && Sweep.Ordered(es) && 0 < k <= |es|
    ensures Sweep.Share(TasksOf(targets), es, k, t) * 1000.0 ==
            WeightBetween(targets, t, Ms(es[0].time), Ms(es[k - 1].time))
  {
    hide Ms, Sweep.HasEvents, Sweep.Ordered, TasksOf, Sweep.Part, EventWeight, WeightIn;
    if k > 1 {
      ShareMs(targets, es, k - 1, t);
      var lo, a, b := Ms(es[0].time), Ms(es[k - 2].time), Ms(es[k - 1].time);
      EventMs(targets, es, 0);
      EventMs(targets, es, k - 2);
      EventMs(targets, es, k - 1);
      EventsOrdered(es, 0, k - 2);
      EventsOrdered(es, k - 2, k - 1);
      var w := EventWeight(targets, es, k - 1, t);
      forall ms | a <= ms < b
        ensures WeightIn(targets, t, ms) == w
      {
        GapWeight(targets, es, k - 1, t, ms);
      }
      WeightStretch(targets, t, lo, a, b, w);
      PartMs(targets, es, k - 1, t);
    }
  }

  /** Milliseconds in which a target does not run do not count for it. */
  lemma {:induction false} WeightInside(targets: seq<Target>, t: nat, lo: int, hi: int)
    requires t < |targets| && lo <= targets[t].start <= targets[t].end <= hi
    ensures WeightBetween(targets, t, lo, hi) == WeightBetween(targets, t, targets[t].start, targets[t].end)
  {
    var a, b := targets[t].start, targets[t].end;
    WeightStretch(targets, t, lo, lo, a, 0.0);
    WeightStretch(targets, t, lo, b, hi, 0.0);
    WeightSplit(targets, t, lo, a, b);
    assert (a - lo) as real * 0.0 == 0.0 && (hi - b) as real * 0.0 == 0.0;
  }

  lemma {:induction false} WeightSplit(targets: seq<Target>, t: nat, lo: int, a: int, b: int)
    requires lo <= a <= b
    ensures WeightBetween(targets, t, lo, b) == WeightBetween(targets, t, lo, a) + WeightBetween(targets, t, a, b)
    decreases b - a
  {
    hide WeightIn;
    if a < b {
      WeightSplit(targets, t, lo, a, b - 1);
    }
  }

  /** The weighted duration of a target counts each millisecond of its own as one over the number of targets that run
      in it. */
  lemma {:induction false} WeightedMs(targets: seq<Target>, es: seq<Sweep.Event>, t: nat)
    requires Sweep.HasEvents(TasksOf(targets), es) && Sweep.Ordered(es) && t < |targets|
    requires targets[t].start <= targets[t].end
    ensures Sweep.Share(TasksOf(targets), es, |es|, t) * 1000.0 ==
            WeightBetween(targets, t, targets[t].start, targets[t].end)
  {
    hide Seconds, Ms, Sweep.HasEvents, Sweep.Ordered, TasksOf, Sweep.Share, WeightBetween;
    SomeEvents(TasksOf(targets), es);
    ShareMs(targets, es, |es|, t);
    var first, last := Ms(es[0].time), Ms(es[|es| - 1].time);
    EventMs(targets, es, 0);
    EventMs(targets, es, |es| - 1);
    TargetEvents(targets, es, t);
    SecondsOrder(first, targets[t].start);
    SecondsOrder(targets[t].end, last);
    WeightInside(targets, t, first, last);
  }

  /** The weighted durations of a summary, in milliseconds. */
  ghost predicate Weighs(targets: seq<Target>, weighted: seq<real>) {
    && |weighted| == |targets|
    && forall t :: 0 <= t < |targets| ==>
         weighted[t] * 1000.0 == WeightBetween(targets, t, targets[t].start, targets[t].end)
  }

  lemma {:induction false} SummaryWeighs(targets: seq<Target>, es: seq<Sweep.Event>, summary: Sweep.Summary)
    requires summary.Summary? && Sweep.Summarizes(TasksOf(targets), es, summary) && Sweep.InOrder(TasksOf(targets))
    ensures Weighs(targets, summary.weighted)
  {
    hide Seconds, Sweep.HasEvents, Sweep.Ordered, Sweep.Share, Sweep.Busy, Sweep.Idle, WeightBetween;
    forall t | 0 <= t < |targets|
      ensures summary.weighted[t] * 1000.0 == WeightBetween(targets, t, targets[t].start, targets[t].end)
    {
      assert TasksOf(targets)[t].start <= TasksOf(targets)[t].end;
      SecondsOrder(targets[t].start, targets[t].end);
      WeightedMs(targets, es, t);
    }
  }

  /** What is reported of a log that can be read: nothing can be summarized exactly when it has no well-formed line, or
      a step of its last build ends before it starts.  Otherwise the weighted durations are the shares of the
      steps: each millisecond of a step counts as one over the number of steps that run in it.  They add up to the
      time during which some step of the last build runs: as many milliseconds as there are in which one does. */
  method BuildReport(header: Header, lines: seq<Line>) returns (r: Report)
    ensures r.Report? <==> header == Version5 && Readable(lines, |lines|)
    ensures r.Report? ==> (r.summary.NoEntries? <==> Records(lines, |lines|) == [])
    ensures r.Report? ==> (r.summary.KeyError? <==> !NoneBackwards(LastBuild(lines)))
    ensures r.Report? && r.summary.Summary? ==> exists es :: Reports(lines, es, r.summary)
    ensures r.Report? && r.summary.Summary? ==> r.summary.total * 1000.0 == |BusyMs(LastBuild(lines))| as real
    ensures r.Report? && r.summary.Summary? ==> Weighs(Grouping(LastBuild(lines)), r.summary.weighted)
  {
    hide Kept, Records, Readable, Grouping, Sweep.Summarizes, TasksOf, Sweep.InOrder, NoneBackwards, BusyMs;
    hide Weighs;
    var result := ReadTargets(header, lines, false);
    if !result.Targets? {
      return Unread(result);
    }
    var tasks := TasksOf(result.targets);
    InOrderIff(Records(lines, |lines|));
    var summary := Sweep.SummarizeEntries(tasks);
    r := Report(summary);
    if summary.Summary? {
      ghost var es :| Sweep.Summarizes(tasks, es, summary);
      ReportHolds(lines, es, summary);
      SummaryWeighs(result.targets, es, summary);
    }
  }

  /** A summary of the last build, over its events in order. */
  ghost predicate Reports(lines: seq<Line>, es: seq<Sweep.Event>, summary: Sweep.Summary)
    requires summary.Summary?
  {
    && Sweep.Summarizes(TasksOf(Grouping(LastBuild(lines))), es, summary)
    && summary.total == BusyTime(LastBuild(lines), es, |es|)
  }

  lemma {:induction false} ReportHolds(lines: seq<Line>, es: seq<Sweep.Event>, summary: Sweep.Summary)
    requires summary.Summary? && Sweep.Summarizes(TasksOf(Grouping(LastBuild(lines))), es, summary)
    requires Records(lines, |lines|) != []
    ensures Reports(lines, es, summary) && summary.total * 1000.0 == |BusyMs(LastBuild(lines))| as real
  {
    hide Kept, Grouping, TasksOf, Records, Sweep.Busy, BusyTime, Sweep.HasEvents, Sweep.Ordered, Sweep.AreShares;
    hide BusyMs;
    var rs := Records(lines, |lines|);
    BusyIs(rs, es, |es|);
    InOrderIff(rs);
    SomeEvents(TasksOf(Grouping(Kept(rs, false))), es);
    TotalMs(rs, es);
  }

  lemma {:induction false} SomeEvents(tasks: seq<Sweep.Task>, es: seq<Sweep.Event>)
    requires Sweep.HasEvents(tasks, es) && tasks != []
    ensures es != []
  {
    assert Sweep.StartOf(tasks, 0) in es;
  }
}
