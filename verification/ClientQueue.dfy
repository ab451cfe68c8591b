/** Clients that take prompts from a shared queue until each takes a sentinel
    (benchmarks/benchmark_hidden_state_extraction.py), over all interleavings without failures. */
module ClientQueue {

  datatype Item = Prompt(id: int) | Sentinel

  datatype Client = Waiting | Working(id: int) | Stopped

  /** `unfinished` is the queue's count of items that were put and not yet reported done, `done` the items that
      were reported, and `taken` counts the sentinels that each client took. */
  datatype State = State(queue: seq<Item>, clients: seq<Client>, results: seq<int>, unfinished: int, taken: seq<int>,
                         done: seq<Item>)

  /** The prompts from `m` to `n`, then `k` sentinels. */
  function QueueFrom(n: nat, m: nat, k: nat): seq<Item>
    requires m <= n
    decreases n - m, k
  {
    if m < n then [Prompt(m)] + QueueFrom(n, m + 1, k)
    else if k > 0 then [Sentinel] + QueueFrom(n, m, k - 1)
    else []
  }

  lemma {:induction false} PutPrompt(n: nat, m: nat)
    requires m <= n
    ensures QueueFrom(n, m, 0) + [Prompt(n)] == QueueFrom(n + 1, m, 0)
    decreases n - m
  {
    if m < n {
      PutPrompt(n, m + 1);
    } else {
      assert QueueFrom(n + 1, n + 1, 0) == [];
    }
  }

  lemma {:induction false} PutSentinel(n: nat, m: nat, k: nat)
    requires m <= n
    ensures QueueFrom(n, m, k) + [Sentinel] == QueueFrom(n, m, k + 1)
    decreases n - m, k
  {
    if m < n {
      PutSentinel(n, m + 1, k);
    } else if k > 0 {
      PutSentinel(n, m, k - 1);
    } else {
      assert QueueFrom(n, n, 0) == [];
    }
  }

  /** Fills the queue with the prompts and one sentinel per client. */
  method Fill(n: nat, k: nat) returns (queue: seq<Item>)
    ensures queue == QueueFrom(n, 0, k) && |queue| == n + k
    ensures forall i :: 0 <= i < n + k ==> queue[i] == if i < n then Prompt(i) else Sentinel
  {
    queue := [];
    for i := 0 to n
      invariant queue == QueueFrom(i, 0, 0) && |queue| == i
    {
      PutPrompt(i, 0);
      queue := queue + [Prompt(i)];
    }
    for i := 0 to k
      invariant queue == QueueFrom(n, 0, i) && |queue| == n + i
    {
      PutSentinel(n, 0, i);
      queue := queue + [Sentinel];
    }
    QueueAt(n, 0, k);
  }

  /** What is where in the queue. */
  lemma {:induction false} QueueAt(n: nat, m: nat, k: nat)
    requires m <= n
    ensures |QueueFrom(n, m, k)| == n - m + k
    ensures forall i :: 0 <= i < n - m + k ==> QueueFrom(n, m, k)[i] == if m + i < n then Prompt(m + i) else Sentinel
    decreases n - m, k
  {
    if m < n {
      QueueAt(n, m + 1, k);
    } else if k > 0 {
      QueueAt(n, m, k - 1);
    }
  }

  // ---- Steps ----------------------------------------------------------------------------------

  predicate Init(s: State, n: nat, k: nat) {
    && s.queue == QueueFrom(n, 0, k) && s.results == [] && s.unfinished == n + k && s.done == []
    && |s.clients| == |s.taken| == k && forall c :: 0 <= c < k ==> s.clients[c] == Waiting && s.taken[c] == 0
  }

  /** A waiting client takes the head of the queue; a sentinel ends its loop. */
  predicate Take(s: State, s': State, c: nat) {
    && c < |s.clients| == |s.taken| && s.clients[c] == Waiting && s.queue != []
    && s' == Taken(s, c)
  }

  function Taken(s: State, c: nat): State
    requires c < |s.clients| == |s.taken| && s.queue != []
  {
    match s.queue[0]
    case Sentinel =>
      s.(queue := s.queue[1..], clients := s.clients[c := Stopped], unfinished := s.unfinished - 1,
         taken := s.taken[c := s.taken[c] + 1], done := s.done + [Sentinel])
    case Prompt(id) => s.(queue := s.queue[1..], clients := s.clients[c := Working(id)])
  }

  /** A client that worked on a prompt adds its result and waits again. */
  predicate Finish(s: State, s': State, c: nat) {
    && c < |s.clients| && s.clients[c].Working?
    && s' == Finished(s, c)
  }

  function Finished(s: State, c: nat): State
    requires c < |s.clients| && s.clients[c].Working?
  {
    s.(clients := s.clients[c := Waiting], results := s.results + [s.clients[c].id], unfinished := s.unfinished - 1,
       done := s.done + [Prompt(s.clients[c].id)])
  }

  ghost predicate Next(s: State, s': State) {
    (exists c :: Take(s, s', c)) || (exists c :: Finish(s, s', c))
  }

  ghost predicate Run(states: seq<State>, n: nat, k: nat) {
    && states != [] && Init(states[0], n, k)
    && forall i :: 0 <= i < |states| - 1 ==> StepAt(states, i)
  }

  ghost predicate StepAt(states: seq<State>, i: nat)
    requires i + 1 < |states|
  {
    Next(states[i], states[i + 1])
  }

  // ---- Counting clients -----------------------------------------------------------------------

  function Count(clients: seq<Client>, j: nat, x: Client): nat
    requires j <= |clients|
  {
    if j == 0 then 0 else Count(clients, j - 1, x) + if clients[j - 1] == x then 1 else 0
  }

  function Busy(clients: seq<Client>, j: nat): nat
    requires j <= |clients|
  {
    if j == 0 then 0 else Busy(clients, j - 1) + if clients[j - 1].Working? then 1 else 0
  }

  lemma {:induction false} CountUpdate(clients: seq<Client>, c: nat, y: Client, j: nat, x: Client)
    requires c < |clients| && j <= |clients|
    ensures Count(clients[c := y], j, x) + (if c < j && clients[c] == x then 1 else 0) ==
            Count(clients, j, x) + if c < j && y == x then 1 else 0
  {
    if j == 0 {
    } else {
      CountUpdate(clients, c, y, j - 1, x);
    }
  }

  lemma {:induction false} BusyUpdate(clients: seq<Client>, c: nat, y: Client, j: nat)
    requires c < |clients| && j <= |clients|
    ensures Busy(clients[c := y], j) + (if c < j && clients[c].Working? then 1 else 0) ==
            Busy(clients, j) + if c < j && y.Working? then 1 else 0
  {
    if j == 0 {
    } else {
      BusyUpdate(clients, c, y, j - 1);
    }
  }

  /** Not more clients have stopped than there are, and with one that has not, fewer. */
  lemma {:induction false} CountBound(clients: seq<Client>, j: nat, x: Client)
    requires j <= |clients|
    ensures Count(clients, j, x) <= j
    ensures Count(clients, j, x) == j ==> forall c :: 0 <= c < j ==> clients[c] == x
    ensures (forall c :: 0 <= c < j ==> clients[c] == x) ==> Count(clients, j, x) == j
  {
    if j == 0 {
    } else {
      CountBound(clients, j - 1, x);
    }
  }

  lemma {:induction false} NoneCounted(clients: seq<Client>, j: nat, x: Client)
    requires j <= |clients| && forall c :: 0 <= c < j ==> clients[c] != x
    ensures Count(clients, j, x) == 0
  {
    if j == 0 {
    } else {
      NoneCounted(clients, j - 1, x);
    }
  }

  lemma {:induction false} NoneBusy(clients: seq<Client>, j: nat)
    requires j <= |clients| && forall c :: 0 <= c < j ==> !clients[c].Working?
    ensures Busy(clients, j) == 0
  {
    if j == 0 {
    } else {
      NoneBusy(clients, j - 1);
    }
  }

  // ---- What every step keeps ------------------------------------------------------------------

  /** How often a prompt is in the results or being worked on. */
  function Copies(s: State, id: int): nat {
    multiset(s.results)[id] + Count(s.clients, |s.clients|, Working(id))
  }

  /** The first `m` prompts have been taken and `left` sentinels have not. */
  ghost predicate Inv(s: State, n: nat, k: nat, m: nat, left: nat) {
    && m <= n && left <= k && |s.clients| == k && s.queue == QueueFrom(n, m, left) && (m < n ==> left == k)
    && Count(s.clients, k, Stopped) == k - left
    && |s.taken| == k && (forall c :: 0 <= c < k ==> s.taken[c] == if s.clients[c] == Stopped then 1 else 0)
    && (forall id :: Copies(s, id) == if 0 <= id < m then 1 else 0)
    && s.unfinished == (n - m) + left + Busy(s.clients, k) == n + k - |s.done|
    && (forall id :: multiset(s.done)[Prompt(id)] == multiset(s.results)[id]) && multiset(s.done)[Sentinel] == k - left
  }

  lemma {:induction false} InitInv(s: State, n: nat, k: nat)
    requires Init(s, n, k)
    ensures Inv(s, n, k, 0, k)
  {
    forall id
      ensures Copies(s, id) == 0
    {
      NoneCounted(s.clients, k, Working(id));
    }
    NoneCounted(s.clients, k, Stopped);
    NoneBusy(s.clients, k);
  }

  lemma {:induction false} TakeInv(s: State, s': State, c: nat, n: nat, k: nat, m: nat,
                                   left: nat) returns (m': nat, left': nat)
    requires Inv(s, n, k, m, left) && Take(s, s', c)
    ensures Inv(s', n, k, m', left')
  {
    m' := if m < n then m + 1 else m;
    left' := if m < n then left else left - 1;
    var y := if m < n then Working(m) else Stopped;
    assert s.queue == [if m < n then Prompt(m) else Sentinel] + QueueFrom(n, m', left');
    assert s.queue[1..] == QueueFrom(n, m', left');
    forall id
      ensures Copies(s', id) == if 0 <= id < m' then 1 else 0
    {
      CountUpdate(s.clients, c, y, k, Working(id));
      assert Copies(s, id) == if 0 <= id < m then 1 else 0;
    }
    CountUpdate(s.clients, c, y, k, Stopped);
    BusyUpdate(s.clients, c, y, k);
  }

  lemma {:induction false} FinishInv(s: State, s': State, c: nat, n: nat, k: nat, m: nat, left: nat)
    requires Inv(s, n, k, m, left) && Finish(s, s', c)
    ensures Inv(s', n, k, m, left)
  {
    forall id
      ensures Copies(s', id) == Copies(s, id)
    {
      CountUpdate(s.clients, c, Waiting, k, Working(id));
    }
    CountUpdate(s.clients, c, Waiting, k, Stopped);
    BusyUpdate(s.clients, c, Waiting, k);
  }

  lemma {:induction false} RunInv(states: seq<State>, n: nat, k: nat, i: nat) returns (m: nat, left: nat)
    requires Run(states, n, k) && i < |states|
    ensures Inv(states[i], n, k, m, left)
  {
    if i == 0 {
      InitInv(states[0], n, k);
      m, left := 0, k;
    } else {
      m, left := RunInv(states, n, k, i - 1);
      var s, s' := states[i - 1], states[i];
      assert StepAt(states, i - 1);
      hide Inv, Take, Finish;
      if c: nat :| Take(s, s', c) {
        m, left := TakeInv(s, s', c, n, k, m, left);
      } else {
        var c: nat :| Finish(s, s', c);
        FinishInv(s, s', c, n, k, m, left);
      }
    }
  }

  // ---- Safety, progress and termination -------------------------------------------------------

  predicate AllStopped(s: State) {
    forall c :: 0 <= c < |s.clients| ==> s.clients[c] == Stopped
  }

  /** A client never waits on an empty queue. */
  lemma {:induction false} NeverStarved(states: seq<State>, n: nat, k: nat, i: nat)
    requires Run(states, n, k) && i < |states| && states[i].queue == []
    ensures forall c :: 0 <= c < |states[i].clients| ==> states[i].clients[c] != Waiting
  {
    var m, left := RunInv(states, n, k, i);
    CountBound(states[i].clients, k, Stopped);
  }

  /** Until all clients have stopped, some client can take a step. */
  lemma {:induction false} NoDeadlock(states: seq<State>, n: nat, k: nat, i: nat) returns (s': State)
    requires Run(states, n, k) && i < |states| && !AllStopped(states[i])
    ensures Next(states[i], s')
  {
    var s := states[i];
    var c :| 0 <= c < |s.clients| && s.clients[c] != Stopped;
    if s.clients[c].Working? {
      s' := Finished(s, c);
      assert Finish(s, s', c);
    } else {
      var m, left := RunInv(states, n, k, i);
      CountBound(s.clients, k, Stopped);
      assert s.queue != [];
      s' := Taken(s, c);
      assert Take(s, s', c);
    }
  }

  /** Work that is left: two steps per prompt in the queue, one per other item or busy client. */
  function Remaining(s: State): nat {
    2 * |s.queue| + Busy(s.clients, |s.clients|)
  }

  lemma {:induction false} StepShrinks(s: State, s': State)
    requires Next(s, s')
    ensures Remaining(s') < Remaining(s)
  {
    if c: nat :| Take(s, s', c) {
      BusyUpdate(s.clients, c, s'.clients[c], |s.clients|);
    } else {
      var c: nat :| Finish(s, s', c);
      BusyUpdate(s.clients, c, Waiting, |s.clients|);
    }
  }

  /** No run is longer than two steps for every item. */
  lemma {:induction false} RunIsShort(states: seq<State>, n: nat, k: nat, i: nat)
    requires Run(states, n, k) && i < |states|
    ensures i + Remaining(states[i]) <= 2 * (n + k)
  {
    if i == 0 {
      QueueAt(n, 0, k);
      NoneBusy(states[0].clients, k);
    } else {
      RunIsShort(states, n, k, i - 1);
      assert StepAt(states, i - 1);
      StepShrinks(states[i - 1], states[i]);
    }
  }

  /** Whenever all clients have stopped, and there is a client or no prompt, every prompt has exactly
      one result, there are no other results, each client took one sentinel, the queue is empty and every
      item is reported done exactly once. */
  lemma {:induction false} Complete(states: seq<State>, n: nat, k: nat, i: nat)
    requires Run(states, n, k) && i < |states| && AllStopped(states[i]) && (k > 0 || n == 0)
    ensures states[i].queue == [] && states[i].unfinished == 0
    ensures |states[i].taken| == k && forall c :: 0 <= c < k ==> states[i].taken[c] == 1
    ensures forall id :: multiset(states[i].results)[id] == if 0 <= id < n then 1 else 0
    ensures forall id :: multiset(states[i].done)[Prompt(id)] == if 0 <= id < n then 1 else 0
    ensures multiset(states[i].done)[Sentinel] == k
  {
    var s := states[i];
    var m, left := RunInv(states, n, k, i);
    CountBound(s.clients, k, Stopped);
    assert m == n && left == 0;
    NoneBusy(s.clients, k);
    forall id
      ensures multiset(s.results)[id] == if 0 <= id < n then 1 else 0
    {
      NoneCounted(s.clients, k, Working(id));
      assert Copies(s, id) == if 0 <= id < m then 1 else 0;
    }
  }

  /** A prompt is never processed twice, it is reported done exactly when it has a result, a sentinel when it was
      taken, and the queue counts every item down once. */
  lemma {:induction false} AtMostOnce(states: seq<State>, n: nat, k: nat, i: nat, id: int)
    requires Run(states, n, k) && i < |states|
    ensures multiset(states[i].results)[id] <= 1 && (multiset(states[i].results)[id] == 1 ==> 0 <= id < n)
    ensures multiset(states[i].done)[Prompt(id)] == multiset(states[i].results)[id]
    ensures multiset(states[i].done)[Sentinel] == Count(states[i].clients, |states[i].clients|, Stopped) <= k
    ensures 0 <= states[i].unfinished == n + k - |states[i].done|
  {
    var m, left := RunInv(states, n, k, i);
    assert Copies(states[i], id) == if 0 <= id < m then 1 else 0;
  }

  /** Without clients nothing is taken: with prompts but no client the queue keeps them all. */
  lemma {:induction false} NoClients(states: seq<State>, n: nat, i: nat)
    requires Run(states, n, 0) && i < |states|
    ensures states[i].queue == QueueFrom(n, 0, 0) && states[i].results == []
  {
    if i > 0 {
      NoClients(states, n, i - 1);
      var m, left := RunInv(states, n, 0, i - 1);
      assert StepAt(states, i - 1);
    }
  }
}
