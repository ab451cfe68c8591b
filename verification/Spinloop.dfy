/** The wait protocol of `spinloop` (csrc/spinloop.cpp): poll a callback, arm the monitor, poll once
    more and wait in hardware, while other threads store to memory. */
module Spinloop {

  /** Where the waiting thread is.  `Polled` and `Rechecked` hold what the callback returned. */
  datatype Pc =
    | Poll | Polled(ok: bool) | ReadClock | Continue
    | Arm | Recheck | Rechecked(ok: bool) | Wait
    | Pause
    | Returned(result: bool) | Raised

  datatype Monitor = Unarmed | Armed | Triggered

  /** `holds` is the callback as a function of memory, which has `size` bytes.  The buffer starts at
      `addr` and has `len` bytes.  `line` is the size of the line that the monitor watches; `maxLine` is the largest
      line size that the processor reports, and all that the code compares `len` with. */
  datatype Config = Config(holds: seq<int> -> bool, timeout: real, start: real,
                           size: nat, addr: nat, len: nat, line: nat, maxLine: nat, supported: bool)

  /** `sinceClock` counts the polls that failed since the clock was last read. */
  datatype State = State(pc: Pc, memory: seq<int>, monitor: Monitor, iteration: nat, now: real, sinceClock: nat)

  /** `iteration` is a 32-bit unsigned integer. */
  const WORD: nat := 0x1_0000_0000

  predicate Layout(c: Config) {
    c.addr + c.len <= c.size && c.line > 0
  }

  predicate HaveTimeout(c: Config) {
    c.timeout > 0.000000001
  }

  /** The code arms the monitor, rather than polling. */
  predicate Monitors(c: Config) {
    c.supported && c.len <= c.maxLine
  }

  /** The line that holds the first byte of the buffer is watched. */
  predicate Watched(c: Config, p: int)
    requires Layout(c)
  {
    c.addr - c.addr % c.line <= p < c.addr - c.addr % c.line + c.line
  }

  /** The whole buffer lies in the watched line. */
  predicate Contained(c: Config)
    requires Layout(c)
  {
    c.addr % c.line + c.len <= c.line
  }

  predicate Init(c: Config, s: State) {
    && s.pc == Poll && s.monitor == Unarmed && s.iteration == 0 && s.now >= c.start && s.sinceClock == 0
    && |s.memory| == c.size
  }

  // ---- Steps of other threads and of the hardware ---------------------------------------------

  /** A store to one byte triggers a monitor that is armed exactly when the byte is in the watched line. */
  predicate StoreAt(c: Config, s: State, s': State, p: nat)
    requires Layout(c)
  {
    && p < |s.memory| && |s'.memory| == |s.memory| && s'.memory == s.memory[p := s'.memory[p]]
    && s' == s.(memory := s'.memory,
                monitor := if s.monitor == Armed && Watched(c, p) then Triggered else s.monitor)
  }

  ghost predicate Store(c: Config, s: State, s': State)
    requires Layout(c)
  {
    exists p :: StoreAt(c, s, s', p)
  }

  predicate Tick(s: State, s': State) {
    s' == s.(now := s'.now) && s'.now >= s.now
  }

  /** Anything else that ends a hardware wait, such as an interrupt. */
  predicate Disturb(s: State, s': State) {
    s.monitor == Armed && s' == s.(monitor := Triggered)
  }

  ghost predicate Environment(c: Config, s: State, s': State)
    requires Layout(c)
  {
    Store(c, s, s') || Tick(s, s') || Disturb(s, s')
  }

  // ---- Steps of the waiting thread ------------------------------------------------------------

  predicate WaiterStep(c: Config, s: State, s': State) {
    match s.pc
    case Poll => s' == s.(pc := Polled(c.holds(s.memory))) || s' == s.(pc := Raised)
    case Polled(ok) => s' == AfterPoll(c, s, ok)
    case ReadClock =>
      || s' == s.(pc := Raised)
      || s' == s.(pc := if s.now - c.start >= c.timeout then Returned(false) else Continue, sinceClock := 0)
    case Continue => s' == s.(pc := if Monitors(c) then Arm else Pause, iteration := (s.iteration + 1) % WORD)
    case Arm => s' == s.(pc := Recheck, monitor := Armed)
    case Recheck => s' == s.(pc := Rechecked(c.holds(s.memory))) || s' == s.(pc := Raised)
    case Rechecked(ok) => s' == s.(pc := if ok then Returned(true) else Wait)
    case Wait => s.monitor == Triggered && s' == s.(pc := Poll, monitor := Unarmed)
    case Pause => s' == s.(pc := Poll)
    case _ => false
  }

  function AfterPoll(c: Config, s: State, ok: bool): State {
    if ok then s.(pc := Returned(true))
    else if HaveTimeout(c) && s.iteration % 16 == 0 then s.(pc := ReadClock, sinceClock := s.sinceClock + 1)
    else s.(pc := Continue, sinceClock := s.sinceClock + 1)
  }

  /** The hardware wait also ends after a number of cycles. */
  predicate WaitExpires(s: State, s': State) {
    s.pc == Wait && s' == s.(pc := Poll, monitor := Unarmed)
  }

  ghost predicate Next(c: Config, s: State, s': State)
    requires Layout(c)
  {
    Environment(c, s, s') || WaiterStep(c, s, s') || WaitExpires(s, s')
  }

  ghost predicate Run(c: Config, states: seq<State>)
    requires Layout(c)
  {
    && states != [] && Init(c, states[0])
    && forall i :: 0 <= i < |states| - 1 ==> StepAt(c, states, i)
  }

  ghost predicate StepAt(c: Config, states: seq<State>, i: nat)
    requires Layout(c) && i + 1 < |states|
  {
    Next(c, states[i], states[i + 1])
  }

  // ---- The invariant --------------------------------------------------------------------------

  predicate SameWatched(c: Config, m: seq<int>, m': seq<int>)
    requires Layout(c)
  {
    && |m| == c.size && |m'| == c.size
    && forall p :: 0 <= p < c.size && Watched(c, p) ==> m[p] == m'[p]
  }

  /** What the callback returns is decided by the watched line. */
  ghost predicate WatchedDecides(c: Config)
    requires Layout(c)
  {
    forall m, m' :: SameWatched(c, m, m') ==> c.holds(m) == c.holds(m')
  }

  /** From the second poll on, a monitor that is still armed means that the second poll saw what the
      watched line holds now. */
  ghost predicate Inv(c: Config, s: State)
    requires Layout(c)
  {
    && |s.memory| == c.size && s.iteration < WORD
    && (AfterArm(s) ==> Monitors(c) && s.monitor != Unarmed)
    && (s.pc == Arm ==> Monitors(c))
    && (WatchedDecides(c) && s.monitor == Armed ==> SecondPollValid(c, s))
    && (HaveTimeout(c) ==> ClockInv(s))
  }

  predicate AfterArm(s: State) {
    s.pc == Recheck || s.pc == Wait || s.pc.Rechecked?
  }

  predicate SecondPollValid(c: Config, s: State) {
    (s.pc == Wait ==> !c.holds(s.memory)) && (s.pc.Rechecked? ==> s.pc.ok == c.holds(s.memory))
  }

  /** How many polls failed since the clock was read, by the iteration counter. */
  predicate ClockInv(s: State) {
    match s.pc
    case ReadClock => (s.sinceClock == 16 || (s.iteration == 0 && s.sinceClock == 1)) && s.iteration % 16 == 0
    case Continue => s.sinceClock == s.iteration % 16
    case Poll => s.sinceClock == (s.iteration + 15) % 16 || (s.iteration == 0 && s.sinceClock == 0)
    case Polled(_) => s.sinceClock == (s.iteration + 15) % 16 || (s.iteration == 0 && s.sinceClock == 0)
    case Returned(_) => s.sinceClock <= 16
    case Raised => s.sinceClock <= 16
    case _ => s.sinceClock == (s.iteration + 15) % 16
  }

  lemma {:induction false} CounterFacts(k: nat)
    requires k < WORD
    ensures (k + 15) % 16 <= 15
    ensures k % 16 != 0 ==> (k + 15) % 16 + 1 == k % 16
    ensures k % 16 == 0 ==> (k + 15) % 16 == 15
    ensures ((k + 1) % WORD + 15) % 16 == k % 16
  {
    if k + 1 < WORD {
      assert (k + 1) % WORD == k + 1;
    }
  }

  lemma {:induction false} EnvironmentKeeps(c: Config, s: State, s': State)
    requires Layout(c) && |s.memory| == c.size && Environment(c, s, s')
    ensures s'.pc == s.pc && s'.iteration == s.iteration && s'.sinceClock == s.sinceClock
    ensures |s'.memory| == c.size
    ensures s'.monitor == s.monitor || (s.monitor == Armed && s'.monitor == Triggered)
    ensures s'.monitor == Armed ==> SameWatched(c, s.memory, s'.memory)
  {
  }

  lemma {:induction false} ClockNext(c: Config, s: State, s': State)
    requires Layout(c) && |s.memory| == c.size
    requires s.iteration < WORD && HaveTimeout(c) && ClockInv(s) && Next(c, s, s')
    ensures ClockInv(s')
  {
    CounterFacts(s.iteration);
    if Environment(c, s, s') {
      EnvironmentKeeps(c, s, s');
    }
    hide Environment;
  }

  lemma {:induction false} NextInv(c: Config, s: State, s': State)
    requires Layout(c) && Inv(c, s) && Next(c, s, s')
    ensures Inv(c, s')
  {
    if HaveTimeout(c) {
      ClockNext(c, s, s');
    }
    hide ClockInv;
    if Environment(c, s, s') {
      EnvironmentKeeps(c, s, s');
    }
    hide Environment, SameWatched;
  }

  lemma {:induction false} RunInv(c: Config, states: seq<State>, i: nat)
    requires Layout(c) && Run(c, states) && i < |states|
    ensures Inv(c, states[i])
  {
    if i == 0 {
    } else {
      RunInv(c, states, i - 1);
      assert StepAt(c, states, i - 1);
      NextInv(c, states[i - 1], states[i]);
    }
  }

  // ---- No lost wakeup, exactly ----------------------------------------------------------------

  /** The waiting thread sits in the hardware wait, the condition holds, and nothing has woken it. */
  predicate Lost(c: Config, s: State) {
    s.pc == Wait && c.holds(s.memory) && s.monitor != Triggered
  }

  ghost predicate NoLostWakeups(c: Config)
    requires Layout(c)
  {
    forall states, i :: Run(c, states) && 0 <= i < |states| ==> !Lost(c, states[i])
  }

  /** In every interleaving the waiting thread is never in the hardware wait on a monitor that has not
      been triggered while the condition holds, if the watched line decides the condition. */
  lemma {:induction false} NoLostWakeup(c: Config, states: seq<State>, i: nat)
    requires Layout(c) && (Monitors(c) ==> WatchedDecides(c))
    requires Run(c, states) && i < |states|
    ensures !Lost(c, states[i])
  {
    RunInv(c, states, i);
  }

  /** States that some run ends in. */
  ghost predicate Reachable(c: Config, s: State)
    requires Layout(c)
  {
    exists states :: Run(c, states) && states[|states| - 1] == s
  }

  lemma {:induction false} Reach(c: Config, s: State, s': State)
    requires Layout(c) && Reachable(c, s) && Next(c, s, s')
    ensures Reachable(c, s')
  {
    var states :| Run(c, states) && states[|states| - 1] == s;
    var longer := states + [s'];
    hide Next;
    forall i | 0 <= i < |longer| - 1
      ensures StepAt(c, longer, i)
    {
      if i < |states| - 1 {
        assert StepAt(c, states, i);
        assert longer[i] == states[i] && longer[i + 1] == states[i + 1];
      }
    }
    assert Run(c, longer);
    assert longer[|longer| - 1] == s';
  }

  /** The state in the hardware wait with memory `m`, in the first iteration and without delay. */
  function Waiting(c: Config, m: seq<int>): State {
    State(Wait, m, Armed, 1, c.start, if HaveTimeout(c) then 0 else 1)
  }

  /** A run from a memory in which the condition does not hold to the hardware wait. */
  lemma {:induction false} ReachesWait(c: Config, m: seq<int>)
    requires Layout(c) && Monitors(c) && |m| == c.size && !c.holds(m)
    ensures Reachable(c, Waiting(c, m))
  {
    hide Environment, Reachable;
    var s0 := State(Poll, m, Unarmed, 0, c.start, 0);
    Starts(c, s0);
    var s1 := s0.(pc := Polled(false));
    Reach(c, s0, s1);
    var s2 := AfterPoll(c, s1, false);
    Reach(c, s1, s2);
    var s3 := s2.(pc := Continue, sinceClock := if HaveTimeout(c) then 0 else 1);
    if HaveTimeout(c) {
      Reach(c, s2, s3);
    }
    var s4 := s3.(pc := Arm, iteration := 1);
    Reach(c, s3, s4);
    var s5 := s4.(pc := Recheck, monitor := Armed);
    Reach(c, s4, s5);
    var s6 := s5.(pc := Rechecked(false));
    Reach(c, s5, s6);
    Reach(c, s6, Waiting(c, m));
  }

  lemma {:induction false} Starts(c: Config, s: State)
    requires Layout(c) && Init(c, s)
    ensures Reachable(c, s)
  {
    assert Run(c, [s]) && [s][|[s]| - 1] == s;
  }

  /** The first `n` bytes of `m'`, and the rest of `m`. */
  function Mixed(m: seq<int>, m': seq<int>, n: nat): seq<int>
    requires n <= |m| == |m'|
  {
    m'[..n] + m[n..]
  }

  /** Stores outside the watched line turn `m` into any memory with the same watched line, and the monitor
      stays armed. */
  lemma {:induction false} StoresUnseen(c: Config, m: seq<int>, m': seq<int>, n: nat)
    requires Layout(c) && SameWatched(c, m, m') && n <= c.size
    requires Reachable(c, Waiting(c, m))
    ensures Reachable(c, Waiting(c, Mixed(m, m', n)))
  {
    hide Reachable;
    if n == 0 {
      assert Mixed(m, m', 0) == m;
    } else {
      StoresUnseen(c, m, m', n - 1);
      var before, after := Mixed(m, m', n - 1), Mixed(m, m', n);
      assert after == before[n - 1 := m'[n - 1]];
      if Watched(c, n - 1) {
        assert after == before;
      } else {
        assert StoreAt(c, Waiting(c, before), Waiting(c, after), n - 1);
        Reach(c, Waiting(c, before), Waiting(c, after));
      }
    }
  }

  /** A run that loses a wakeup, from any two memories that the watched line does not tell apart. */
  lemma {:induction false} Loses(c: Config, m: seq<int>, m': seq<int>)
    requires Layout(c) && Monitors(c) && SameWatched(c, m, m') && !c.holds(m) && c.holds(m')
    ensures !NoLostWakeups(c)
  {
    ReachesWait(c, m);
    StoresUnseen(c, m, m', c.size);
    assert Mixed(m, m', c.size) == m';
    var states :| Run(c, states) && states[|states| - 1] == Waiting(c, m');
    assert Lost(c, states[|states| - 1]);
  }

  /** No interleaving loses a wakeup if and only if the monitor is not used or the watched line decides
      the condition. */
  lemma {:induction false} NoLostWakeupIff(c: Config)
    requires Layout(c)
    ensures NoLostWakeups(c) <==> (c.supported && c.len <= c.maxLine ==> WatchedDecides(c))
  {
    if Monitors(c) && !WatchedDecides(c) {
      var m, m' :| SameWatched(c, m, m') && c.holds(m) != c.holds(m');
      if c.holds(m) {
        Loses(c, m', m);
      } else {
        Loses(c, m, m');
      }
    } else {
      forall states, i | Run(c, states) && 0 <= i < |states|
        ensures !Lost(c, states[i])
      {
        NoLostWakeup(c, states, i);
      }
    }
  }

  // ---- Which buffers are safe -----------------------------------------------------------------

  predicate SameBuffer(c: Config, m: seq<int>, m': seq<int>) {
    |m| == c.size && |m'| == c.size && forall p :: c.addr <= p < c.addr + c.len && p < c.size ==> m[p] == m'[p]
  }

  /** The callback looks at nothing but the buffer that is passed along. */
  ghost predicate BufferDecides(c: Config) {
    forall m, m' :: SameBuffer(c, m, m') ==> c.holds(m) == c.holds(m')
  }

  /** The callback that waits for one byte to become 1. */
  function ByteIsOne(p: nat): seq<int> -> bool {
    m => p < |m| && m[p] == 1
  }

  /** A layout loses no wakeup of any callback on its buffer if and only if the monitor is not used or
      the whole buffer lies in one line.  The length test of the code does not imply that. */
  lemma {:induction false} SafeLayoutIff(c: Config)
    requires Layout(c)
    ensures (forall h :: BufferDecides(c.(holds := h)) ==> NoLostWakeups(c.(holds := h)))
            <==> (c.supported && c.len <= c.maxLine ==> c.addr % c.line + c.len <= c.line)
  {
    if Monitors(c) && !Contained(c) {
      var p := c.addr - c.addr % c.line + c.line;
      var d := c.(holds := ByteIsOne(p));
      var m := seq(c.size, _ => 0);
      var m' := m[p := 1];
      assert SameWatched(d, m, m');
      Loses(d, m, m');
      assert BufferDecides(d);
    } else {
      forall h | BufferDecides(c.(holds := h))
        ensures NoLostWakeups(c.(holds := h))
      {
        ContainedDecides(c.(holds := h));
        NoLostWakeupIff(c.(holds := h));
      }
    }
  }

  lemma {:induction false} ContainedDecides(c: Config)
    requires Layout(c) && BufferDecides(c)
    ensures Contained(c) ==> WatchedDecides(c)
  {
    if Contained(c) {
      forall m, m' | SameWatched(c, m, m')
        ensures c.holds(m) == c.holds(m')
      {
        forall p | c.addr <= p < c.addr + c.len
          ensures m[p] == m'[p]
        {
          assert Watched(c, p);
        }
        assert SameBuffer(c, m, m');
      }
    }
  }

  // ---- The writer of the shared memory ring ---------------------------------------------------

  function FlagSum(m: seq<int>, lo: nat, hi: nat): int
    requires lo <= hi <= |m|
    decreases hi
  {
    if lo == hi then 0 else FlagSum(m, lo, hi - 1) + m[hi - 1]
  }

  /** The writer may write when the block is not written, or read by all `n` readers.  Its flags are the byte
      at `addr` and the `n` bytes after it. */
  function WriterMayWrite(addr: nat, n: nat): seq<int> -> bool {
    m => addr + 1 + n <= |m| ==> !(m[addr] != 0 && FlagSum(m, addr + 1, addr + 1 + n) != n)
  }

  lemma {:induction false} FlagSumSame(m: seq<int>, m': seq<int>, lo: nat, hi: nat)
    requires lo <= hi <= |m| == |m'| && forall p :: lo <= p < hi ==> m[p] == m'[p]
    ensures FlagSum(m, lo, hi) == FlagSum(m', lo, hi)
    decreases hi
  {
    if lo == hi {
    } else {
      FlagSumSame(m, m', lo, hi - 1);
    }
  }

  /** All flags are set, except the one at `p`. */
  lemma {:induction false} FlagSumOnes(m: seq<int>, lo: nat, hi: nat, p: nat)
    requires lo <= hi <= |m| && forall q :: lo <= q < hi ==> m[q] == if q == p then 0 else 1
    ensures FlagSum(m, lo, hi) == hi - lo - if lo <= p < hi then 1 else 0
    decreases hi
  {
    if lo == hi {
    } else {
      FlagSumOnes(m, lo, hi - 1, p);
    }
  }

  /** The writer of a ring with `n` readers waits on the flags of a block. */
  ghost predicate WriterWaits(c: Config, n: nat) {
    c.len == 1 + n && c.holds == WriterMayWrite(c.addr, n)
  }

  /** The writer loses no wakeup if and only if the monitor is not used or its flags lie in one line. */
  lemma {:induction false} WriterSafeIff(c: Config, n: nat)
    requires Layout(c) && WriterWaits(c, n)
    ensures NoLostWakeups(c) <==> (c.supported && c.len <= c.maxLine ==> c.addr % c.line + c.len <= c.line)
  {
    if Monitors(c) && !Contained(c) {
      var p := c.addr - c.addr % c.line + c.line;
      var m := seq(c.size, q => if q == p then 0 else 1);
      var m' := m[p := 1];
      FlagSumOnes(m, c.addr + 1, c.addr + 1 + n, p);
      FlagSumOnes(m', c.addr + 1, c.addr + 1 + n, c.size);
      assert SameWatched(c, m, m');
      Loses(c, m, m');
    } else {
      WriterReadsFlags(c, n);
      ContainedDecides(c);
      NoLostWakeupIff(c);
    }
  }

  lemma {:induction false} WriterReadsFlags(c: Config, n: nat)
    requires Layout(c) && WriterWaits(c, n)
    ensures BufferDecides(c)
  {
    forall m, m' | SameBuffer(c, m, m')
      ensures c.holds(m) == c.holds(m')
    {
      FlagSumSame(m, m', c.addr + 1, c.addr + 1 + n);
    }
  }

  /** Where the flags of a block start, in a ring with `n` readers whose flags start at `base`. */
  function FlagsOf(base: nat, block: nat, n: nat): nat {
    base + block * (1 + n)
  }

  /** With eight readers and lines of 64 bytes the flags of block 7 start at the last byte of a line. */
  lemma {:induction false} EighthBlockLosesWakeups(c: Config, base: nat)
    requires Layout(c) && WriterWaits(c, 8) && c.addr == FlagsOf(base, 7, 8) && base % 64 == 0
    requires c.line == 64 && c.maxLine == 64 && c.supported
    ensures !NoLostWakeups(c)
  {
    WriterSafeIff(c, 8);
  }

  // ---- What a return means --------------------------------------------------------------------

  /** At most sixteen polls fail between two readings of the clock, and when it is read, exactly sixteen have failed, or
      one if that was the first poll. */
  lemma {:induction false} ClockReadOften(c: Config, states: seq<State>, i: nat)
    requires Layout(c) && Run(c, states) && i < |states| && c.timeout > 0.000000001
    ensures states[i].sinceClock <= 16
    ensures states[i].pc == ReadClock ==>
              states[i].sinceClock == 16 || (states[i].sinceClock == 1 && states[i].iteration == 0)
  {
    RunInv(c, states, i);
    CounterFacts(states[i].iteration);
  }

  /** The callback returns true at state `j`. */
  predicate SawTrue(c: Config, states: seq<State>, j: nat)
    requires j < |states|
  {
    (states[j].pc == Poll || states[j].pc == Recheck) && c.holds(states[j].memory)
  }

  /** The clock is read at state `j` and shows that the time is up. */
  predicate SawTimeout(c: Config, states: seq<State>, j: nat)
    requires j < |states|
  {
    states[j].pc == ReadClock && HaveTimeout(c) && states[j].now - c.start >= c.timeout
  }

  lemma {:induction false} TrueWasSeen(c: Config, states: seq<State>, i: nat) returns (j: nat)
    requires Layout(c) && Run(c, states) && i < |states|
    requires states[i].pc in {Polled(true), Rechecked(true), Returned(true)}
    ensures j < i && SawTrue(c, states, j)
  {
    assert i > 0;
    assert StepAt(c, states, i - 1);
    if states[i - 1].pc == Poll || states[i - 1].pc == Recheck {
      j := i - 1;
    } else {
      j := TrueWasSeen(c, states, i - 1);
    }
  }

  lemma {:induction false} ReadsClock(c: Config, states: seq<State>, i: nat)
    requires Layout(c) && Run(c, states) && i < |states| && states[i].pc == ReadClock
    ensures c.timeout > 0.000000001
  {
    assert i > 0;
    assert StepAt(c, states, i - 1);
    if states[i - 1].pc == ReadClock {
      ReadsClock(c, states, i - 1);
    }
  }

  lemma {:induction false} TimeoutWasSeen(c: Config, states: seq<State>, i: nat) returns (j: nat)
    requires Layout(c) && Run(c, states) && i < |states| && states[i].pc == Returned(false)
    ensures j < i && SawTimeout(c, states, j)
  {
    assert i > 0;
    assert StepAt(c, states, i - 1);
    if states[i - 1].pc == ReadClock {
      ReadsClock(c, states, i - 1);
      j := i - 1;
    } else {
      j := TimeoutWasSeen(c, states, i - 1);
    }
  }

  // ---- The time is up -------------------------------------------------------------------------

  /** Once the clock has been read, the thread goes on exactly when the time is not up. */
  lemma {:induction false} AfterReadClock(c: Config, states: seq<State>, i: nat)
    requires Layout(c) && Run(c, states) && i + 1 < |states|
    requires states[i].pc == ReadClock && states[i + 1].pc != ReadClock && states[i + 1].pc != Raised
    ensures states[i + 1].pc == if states[i].now - c.start >= c.timeout then Returned(false) else Continue
  {
    RunInv(c, states, i);
    assert StepAt(c, states, i);
    if Environment(c, states[i], states[i + 1]) {
      EnvironmentKeeps(c, states[i], states[i + 1]);
    }
  }

  /** The polls that fail between two states of a run. */
  function FailedPolls(states: seq<State>, i: nat, j: nat): nat
    requires i <= j < |states|
    decreases j
  {
    if i == j then 0
    else
      FailedPolls(states, i, j - 1) +
      if states[j - 1].pc == Polled(false) && states[j].pc != Polled(false) then 1 else 0
  }

  /** The polls up to the next one after which the clock is read, from the poll in iteration `k` on. */
  function PollsToClock(k: nat): nat {
    if k % 16 == 0 then 1 else 17 - k % 16
  }

  /** The polls that may still fail once the time is up. */
  function Left(s: State): nat {
    match s.pc
    case Polled(ok) => if ok then 0 else PollsToClock(s.iteration)
    case Continue => 16 - s.iteration % 16
    case ReadClock => 0
    case Returned(_) => 0
    case Raised => 0
    case _ => PollsToClock(s.iteration)
  }

  /** The place of a state in its iteration, counted down. */
  function Place(s: State): nat {
    match s.pc
    case Continue => 7
    case Arm => 6
    case Recheck => 5
    case Rechecked(_) => 4
    case Wait => 3
    case Pause => 3
    case Poll => 2
    case Polled(_) => 1
    case ReadClock => 1
    case Returned(_) => 0
    case Raised => 0
  }

  predicate TimeUp(c: Config, s: State) {
    s.now - c.start >= c.timeout
  }

  /** Every step keeps the time up, fails a poll only if one is left, and takes the thread further. */
  lemma {:induction false} LeftNext(c: Config, s: State, t: State)
    requires Layout(c) && |s.memory| == c.size && s.iteration < WORD && HaveTimeout(c) && TimeUp(c, s) && Next(c, s, t)
    ensures TimeUp(c, t)
    ensures (if s.pc == Polled(false) && t.pc != Polled(false) then 1 else 0) + Left(t) <= Left(s)
    ensures (if s.pc != t.pc then 1 else 0) + 8 * Left(t) + Place(t) <= 8 * Left(s) + Place(s)
  {
    hide WaiterStep, WaitExpires, PollsToClock;
    if Environment(c, s, t) {
      EnvironmentKeeps(c, s, t);
      EnvironmentTime(c, s, t);
    } else {
      hide Left, Place, Environment;
      WaiterLeft(c, s, t);
    }
  }

  lemma {:induction false} WaiterLeft(c: Config, s: State, t: State)
    requires s.iteration < WORD && HaveTimeout(c) && TimeUp(c, s) && (WaiterStep(c, s, t) || WaitExpires(s, t))
    ensures TimeUp(c, t) && t.pc != s.pc
    ensures (if s.pc == Polled(false) then 1 else 0) + Left(t) <= Left(s)
    ensures 1 + 8 * Left(t) + Place(t) <= 8 * Left(s) + Place(s)
  {
    NextPoll(s.iteration);
    hide HaveTimeout;
  }

  lemma {:induction false} EnvironmentTime(c: Config, s: State, t: State)
    requires Layout(c) && Environment(c, s, t)
    ensures t.now >= s.now
  {
  }

  lemma {:induction false} NextPoll(k: nat)
    requires k < WORD
    ensures PollsToClock((k + 1) % WORD) == 16 - k % 16
  {
    if k + 1 < WORD {
      assert (k + 1) % WORD == k + 1;
    }
  }

  lemma {:induction false} LeftInRun(c: Config, states: seq<State>, i: nat, j: nat)
    requires Layout(c) && Run(c, states) && i <= j < |states| && HaveTimeout(c) && TimeUp(c, states[i])
    ensures TimeUp(c, states[j])
    ensures FailedPolls(states, i, j) + Left(states[j]) <= Left(states[i])
    ensures Moves(states, i, j) + 8 * Left(states[j]) + Place(states[j]) <= 8 * Left(states[i]) + Place(states[i])
    decreases j
  {
    hide Next, Left, Place, Init, Layout, WatchedDecides, ClockInv, TimeUp;
    if i == j {
    } else {
      LeftInRun(c, states, i, j - 1);
      RunInv(c, states, j - 1);
      assert StepAt(c, states, j - 1);
      LeftNext(c, states[j - 1], states[j]);
    }
  }

  /** Once the time is up, at most sixteen more polls fail, and after them the thread is to read the clock, or has seen
      that the condition holds, or has stopped.  It takes at most 135 more steps, and can take the next one
      as long as it has not returned or raised. */
  lemma {:induction false} TimesOut(c: Config, states: seq<State>, i: nat, j: nat)
    requires Layout(c) && Run(c, states) && i <= j < |states|
    requires c.timeout > 0.000000001 && states[i].now - c.start >= c.timeout
    ensures FailedPolls(states, i, j) <= 16 && Moves(states, i, j) <= 135
    ensures !states[j].pc.Returned? && states[j].pc != Raised ==>
              exists t: State :: t.pc != states[j].pc && (WaiterStep(c, states[j], t) || WaitExpires(states[j], t))
    ensures FailedPolls(states, i, j) == 16 ==>
              states[j].pc in {ReadClock, Polled(true), Returned(true), Returned(false), Raised}
  {
    LeftInRun(c, states, i, j);
    hide Run, Next;
    if !Stopped(states[j]) {
      var t := NextStep(c, states[j]);
    }
  }

  lemma {:induction false} NextStep(c: Config, s: State) returns (t: State)
    requires !Stopped(s)
    ensures t.pc != s.pc && (WaiterStep(c, s, t) || WaitExpires(s, t))
  {
    match s.pc {
      case Poll => t := s.(pc := Polled(c.holds(s.memory)));
      case Polled(ok) => t := AfterPoll(c, s, ok);
      case ReadClock =>
        t := s.(pc := if s.now - c.start >= c.timeout then Returned(false) else Continue, sinceClock := 0);
      case Continue => t := s.(pc := if Monitors(c) then Arm else Pause, iteration := (s.iteration + 1) % WORD);
      case Arm => t := s.(pc := Recheck, monitor := Armed);
      case Recheck => t := s.(pc := Rechecked(c.holds(s.memory)));
      case Rechecked(ok) => t := s.(pc := if ok then Returned(true) else Wait);
      case Wait => t := s.(pc := Poll, monitor := Unarmed);
      case Pause => t := s.(pc := Poll);
    }
  }

  /** While the condition does not hold, the thread does not return true. */
  lemma {:induction false} NotTrue(c: Config, states: seq<State>, i: nat, j: nat)
    requires Layout(c) && Run(c, states) && i <= j < |states|
    requires states[i].pc !in {Polled(true), Rechecked(true), Returned(true)}
    requires forall k :: i <= k <= j ==> !c.holds(states[k].memory)
    ensures states[j].pc !in {Polled(true), Rechecked(true), Returned(true)}
  {
    if i < j {
      NotTrue(c, states, i, j - 1);
      RunInv(c, states, j - 1);
      assert StepAt(c, states, j - 1);
      if Environment(c, states[j - 1], states[j]) {
        EnvironmentKeeps(c, states[j - 1], states[j]);
      }
    }
  }

  // ---- Response -------------------------------------------------------------------------------

  /** The steps that the waiting thread still takes at most once the condition holds for good. */
  function Remaining(s: State): nat {
    match s.pc
    case Polled(ok) => if ok then 1 else 7
    case ReadClock => 6
    case Continue => 5
    case Rechecked(ok) => if ok then 1 else 4
    case Arm => 4
    case Pause => 3
    case Wait => 3
    case Poll => 2
    case Recheck => 2
    case Returned(_) => 0
    case Raised => 0
  }

  predicate Stopped(s: State) {
    s.pc.Returned? || s.pc == Raised
  }

  /** While the condition holds, every step of the waiting thread brings it closer to its return. */
  lemma {:induction false} Closer(c: Config, s: State, t: State)
    requires c.holds(s.memory) && (WaiterStep(c, s, t) || WaitExpires(s, t))
    ensures t.memory == s.memory && t.pc != s.pc && Remaining(t) < Remaining(s)
  {
  }

  /** While the condition holds, the waiting thread can always take a step, without a failing clock or callback
      and without help from the hardware timeout. */
  lemma {:induction false} Responds(c: Config, s: State) returns (s': State)
    requires Layout(c) && Inv(c, s) && (Monitors(c) ==> WatchedDecides(c))
    requires c.holds(s.memory) && !Stopped(s)
    ensures WaiterStep(c, s, s') && s'.pc != Raised
  {
    match s.pc {
      case Poll => s' := s.(pc := Polled(true));
      case Polled(ok) => s' := AfterPoll(c, s, ok);
      case ReadClock =>
        s' := s.(pc := if s.now - c.start >= c.timeout then Returned(false) else Continue, sinceClock := 0);
      case Continue => s' := s.(pc := if Monitors(c) then Arm else Pause, iteration := (s.iteration + 1) % WORD);
      case Arm => s' := s.(pc := Recheck, monitor := Armed);
      case Recheck => s' := s.(pc := Rechecked(true));
      case Rechecked(ok) => s' := s.(pc := if ok then Returned(true) else Wait);
      case Wait => s' := s.(pc := Poll, monitor := Unarmed);
      case Pause => s' := s.(pc := Poll);
    }
  }

  /** The steps of the waiting thread between two states of a run; the environment never moves it. */
  function Moves(states: seq<State>, i: nat, j: nat): nat
    requires i <= j < |states|
    decreases j
  {
    if i == j then 0 else Moves(states, i, j - 1) + if states[j - 1].pc != states[j].pc then 1 else 0
  }

  lemma {:induction false} NextCounts(c: Config, s: State, t: State)
    requires Layout(c) && |s.memory| == c.size && c.holds(s.memory) && Next(c, s, t)
    ensures (if s.pc != t.pc then 1 else 0) + Remaining(t) <= Remaining(s)
  {
    if Environment(c, s, t) {
      EnvironmentKeeps(c, s, t);
      assert Remaining(t) == Remaining(s);
    } else {
      hide Environment, Remaining, WaiterStep;
      Closer(c, s, t);
    }
  }

  lemma {:induction false} CountsInRun(c: Config, states: seq<State>, i: nat, j: nat)
    requires Layout(c) && Run(c, states) && i <= j < |states|
    requires forall k :: i <= k <= j ==> c.holds(states[k].memory)
    ensures Moves(states, i, j) + Remaining(states[j]) <= Remaining(states[i])
    decreases j
  {
    hide Next, Remaining, WatchedDecides, ClockInv, Init, Layout;
    if i == j {
    } else {
      CountsInRun(c, states, i, j - 1);
      RunInv(c, states, j - 1);
      assert StepAt(c, states, j - 1);
      NextCounts(c, states[j - 1], states[j]);
    }
  }

  /** If the condition holds from state `i` to state `j` of a run, the waiting thread takes at most seven steps in
      between, and is not stuck at `j` unless it has returned. */
  lemma {:induction false} RespondsInRun(c: Config, states: seq<State>, i: nat, j: nat)
    requires Layout(c) && (Monitors(c) ==> WatchedDecides(c))
    requires Run(c, states) && i <= j < |states|
    requires forall k :: i <= k <= j ==> c.holds(states[k].memory)
    ensures Moves(states, i, j) <= 7
    ensures !Stopped(states[j]) ==> exists s' :: WaiterStep(c, states[j], s')
  {
    CountsInRun(c, states, i, j);
    RunInv(c, states, j);
    hide Inv, WaiterStep, WatchedDecides, Run;
    if !Stopped(states[j]) {
      var s' := Responds(c, states[j]);
    }
  }

  /** A store after the monitor was armed wakes the waiting thread if it is to the watched line, and otherwise
      changes nothing for the monitor. */
  lemma {:induction false} StoreWakes(c: Config, states: seq<State>, i: nat, p: nat)
    requires Layout(c) && Run(c, states) && i + 1 < |states| && StoreAt(c, states[i], states[i + 1], p)
    requires AfterArm(states[i])
    ensures states[i + 1].monitor == Triggered <==> Watched(c, p) || states[i].monitor == Triggered
  {
    RunInv(c, states, i);
  }
}
