/** Merging of streamed request outputs (vllm/outputs.py, `RequestOutput.add`).  Text, tokens and
    logprobs are lists of numbers. */
module RequestOutputs {
  import opened Options

  datatype Completion = Completion(index: int, text: seq<int>, tokens: seq<int>, logprobs: Option<seq<int>>,
                                   cumulative: int, finishReason: int, stopReason: int)

  datatype Output = Output(finished: bool, kvParams: int, outputs: seq<Completion>)

  /** Logprobs that count as true: present and not empty. */
  predicate NewLogprobs(n: Completion) {
    n.logprobs.Some? && |n.logprobs.value| > 0
  }

  /** Two completions of the same index.  The merge fails when there are new logprobs and none to
      extend. */
  function Merge(c: Completion, n: Completion, aggregate: bool): Option<Completion> {
    if !aggregate then Some(n)
    else if NewLogprobs(n) && c.logprobs.None? then None
    else
      var logprobs := if NewLogprobs(n) then Some(c.logprobs.value + n.logprobs.value) else c.logprobs;
      Some(Completion(c.index, c.text + n.text, c.tokens + n.tokens, logprobs, n.cumulative, n.finishReason,
                      n.stopReason))
  }

  /** The position of the first completion with an index, or the length. */
  function Find(outs: seq<Completion>, x: int): (k: nat)
    ensures k <= |outs|
  {
    if outs == [] then 0
    else
      var n := |outs| - 1;
      var k := Find(outs[..n], x);
      if k < n || outs[n].index == x then k else n + 1
  }

  lemma {:induction false} FindIs(outs: seq<Completion>, x: int)
    ensures var k := Find(outs, x);
            (k < |outs| ==> outs[k].index == x) && forall i :: 0 <= i < k ==> outs[i].index != x
  {
    if outs == [] {
    } else {
      var n := |outs| - 1;
      FindIs(outs[..n], x);
      assert forall i :: 0 <= i < n ==> outs[..n][i] == outs[i];
    }
  }

  /** It is determined by being the first. */
  lemma {:induction false} FindUnique(outs: seq<Completion>, x: int, k: nat)
    requires k <= |outs| && (k < |outs| ==> outs[k].index == x) && forall i :: 0 <= i < k ==> outs[i].index != x
    ensures Find(outs, x) == k
  {
    FindIs(outs, x);
  }

  /** One step of the outer loop. */
  function Step(o: Option<seq<Completion>>, n: Completion, aggregate: bool): Option<seq<Completion>> {
    if o.None? then None
    else
      var k := Find(o.value, n.index);
      if k == |o.value| then Some(o.value + [n])
      else
        var c := Merge(o.value[k], n, aggregate);
        if c.None? then None else Some(o.value[k := c.value])
  }

  /** The first `j` completions, one after the other. */
  function Fold(o: Option<seq<Completion>>, cs: seq<Completion>, j: nat, aggregate: bool): Option<seq<Completion>>
    requires j <= |cs|
  {
    if j == 0 then o else Step(Fold(o, cs, j - 1, aggregate), cs[j - 1], aggregate)
  }

  function Added(acc: Output, next: Output, aggregate: bool): Option<Output> {
    var outs := Fold(Some(acc.outputs), next.outputs, |next.outputs|, aggregate);
    if outs.None? then None else Some(Output(acc.finished || next.finished, next.kvParams, outs.value))
  }

  predicate Distinct(outs: seq<Completion>) {
    forall i, j :: 0 <= i < j < |outs| ==> outs[i].index != outs[j].index
  }

  // ---- The method -----------------------------------------------------------------------------

  /** A completion whose logprobs are missing has its text and tokens extended before that is noticed. */
  function HalfMerged(c: Completion, n: Completion): Completion {
    c.(text := c.text + n.text, tokens := c.tokens + n.tokens)
  }

  class CompletionOutput {
    const index: int
    var text: seq<int>
    var tokens: seq<int>
    var logprobs: Option<seq<int>>
    var cumulative: int
    var finishReason: int
    var stopReason: int

    constructor (c: Completion)
      ensures Value() == c
    {
      index, text, tokens, logprobs := c.index, c.text, c.tokens, c.logprobs;
      cumulative, finishReason, stopReason := c.cumulative, c.finishReason, c.stopReason;
    }

    function Value(): Completion
      reads this
    {
      Completion(index, text, tokens, logprobs, cumulative, finishReason, stopReason)
    }

    /** The merge of a completion into one with the same index; false when the assertion on logprobs fails. */
    method Extend(n: Completion) returns (ok: bool)
      modifies this
      ensures ok == Merge(old(Value()), n, true).Some?
      ensures Value() == if ok then Merge(old(Value()), n, true).value else HalfMerged(old(Value()), n)
      ensures text == old(text) + n.text && tokens == old(tokens) + n.tokens
      ensures !ok ==> unchanged(`logprobs, `cumulative, `finishReason, `stopReason)
    {
      text := text + n.text;
      tokens := tokens + n.tokens;
      if NewLogprobs(n) {
        if logprobs.None? {
          return false;
        }
        logprobs := Some(logprobs.value + n.logprobs.value);
      }
      cumulative, finishReason, stopReason := n.cumulative, n.finishReason, n.stopReason;
      return true;
    }
  }

  ghost function Values(cells: seq<CompletionOutput>): (r: seq<Completion>)
    reads cells
    ensures |r| == |cells|
  {
    if cells == [] then [] else Values(cells[..|cells| - 1]) + [cells[|cells| - 1].Value()]
  }

  lemma {:induction false} ValuesAt(cells: seq<CompletionOutput>, i: nat)
    requires i < |cells|
    ensures Values(cells)[i] == cells[i].Value()
  {
    if i == |cells| - 1 {
    } else {
      ValuesAt(cells[..|cells| - 1], i);
    }
  }

  lemma {:induction false} ValuesAll(cells: seq<CompletionOutput>)
    ensures forall i :: 0 <= i < |cells| ==> Values(cells)[i] == cells[i].Value()
  {
    forall i | 0 <= i < |cells|
      ensures Values(cells)[i] == cells[i].Value()
    {
      ValuesAt(cells, i);
    }
  }

  predicate NoRepeats(cells: seq<CompletionOutput>) {
    forall i, k :: 0 <= i < k < |cells| ==> cells[i] != cells[k]
  }

  /** What `cells` become when `others` are added: completions that were there stay, to be extended in place, or
      are replaced by those of the other output; new ones are objects of the other output. */
  ghost predicate Shares(cells: seq<CompletionOutput>, cells': seq<CompletionOutput>, others: seq<CompletionOutput>,
                         aggregate: bool)
  {
    && |cells'| >= |cells| && NoRepeats(cells')
    && (forall i :: 0 <= i < |cells'| ==> (i < |cells| && cells'[i] == cells[i]) || cells'[i] in others)
    && (aggregate ==> forall i :: 0 <= i < |cells| ==> cells'[i] == cells[i])
  }

  predicate NoneOf(cells: seq<CompletionOutput>, others: seq<CompletionOutput>, j: nat) {
    forall k :: j <= k < |others| ==> others[k] !in cells
  }

  /** What one round does to the objects, if it finds its index at `k`. */
  ghost predicate OneAdded(cells: seq<CompletionOutput>, cells': seq<CompletionOutput>, n: CompletionOutput, k: nat,
                           aggregate: bool)
  {
    cells' == if k >= |cells| then cells + [n] else if aggregate then cells else cells[k := n]
  }

  lemma {:induction false} SharesStart(cells: seq<CompletionOutput>, others: seq<CompletionOutput>, aggregate: bool)
    requires NoRepeats(cells)
    ensures Shares(cells, cells, others, aggregate)
  {
  }

  lemma {:induction false} SharesNext(start: seq<CompletionOutput>, cells: seq<CompletionOutput>,
                                      cells': seq<CompletionOutput>, others: seq<CompletionOutput>, j: nat, k: nat,
                                      aggregate: bool)
    requires Shares(start, cells, others, aggregate) && j < |others| && OneAdded(cells, cells', others[j], k, aggregate)
    requires NoRepeats(others) && NoneOf(cells, others, j)
    ensures Shares(start, cells', others, aggregate) && NoRepeats(cells') && NoneOf(cells', others, j + 1)
    ensures forall i :: 0 <= i < |cells'| ==> cells'[i] in start || cells'[i] in others
  {
  }

  // ---- Objects --------------------------------------------------------------------------------

  /** No completion object occurs twice in the two outputs. */
  predicate Disjointed(cells: seq<CompletionOutput>, others: seq<CompletionOutput>) {
    NoRepeats(cells) && NoRepeats(others) && NoneOf(cells, others, 0)
  }

  lemma {:induction false} NotAmong(cells: seq<CompletionOutput>, others: seq<CompletionOutput>, j: nat)
    requires NoneOf(cells, others, j) && j < |others|
    ensures others[j] !in cells
  {
  }

  ghost function Objects(cells: seq<CompletionOutput>, others: seq<CompletionOutput>): set<CompletionOutput> {
    (set c | c in cells) + (set c | c in others)
  }

  lemma {:induction false} ObjectsAre(cells: seq<CompletionOutput>, others: seq<CompletionOutput>)
    ensures forall c :: c in Objects(cells, others) <==> c in cells || c in others
  {
  }

  /** What the completion objects hold. */
  ghost function Heap(all: set<CompletionOutput>): map<CompletionOutput, Completion>
    reads all
  {
    map c | c in all :: c.Value()
  }

  lemma {:induction false} HeapIs(all: set<CompletionOutput>)
    ensures Heap(all).Keys == all && (forall c :: c in all ==> Heap(all)[c] == c.Value()) && Indexed(Heap(all))
  {
  }

  /** An output while another is added to it: whether the assertion held so far, its completion objects, and what
      all objects hold. */
  datatype Merging = Merging(ok: bool, cells: seq<CompletionOutput>, heap: map<CompletionOutput, Completion>)

  ghost predicate Closed(m: Merging) {
    forall c :: c in m.cells ==> c in m.heap
  }

  /** Every object of the two outputs holds something. */
  ghost predicate Covers(m: Merging, others: seq<CompletionOutput>) {
    Closed(m) && forall i :: 0 <= i < |others| ==> others[i] in m.heap
  }

  lemma {:induction false} HeapCovers(cells: seq<CompletionOutput>, others: seq<CompletionOutput>)
    ensures Covers(Merging(true, cells, Heap(Objects(cells, others))), others)
    ensures Closed(Merging(true, cells, Heap(Objects(cells, others))))
    ensures Closed(Merging(true, others, Heap(Objects(cells, others))))
  {
    ObjectsAre(cells, others);
  }

  ghost function CellFind(cells: seq<CompletionOutput>, x: int): (k: nat)
    ensures k <= |cells| && (k < |cells| ==> cells[k].index == x) && forall i :: 0 <= i < k ==> cells[i].index != x
  {
    if cells == [] then 0
    else
      var n := |cells| - 1;
      var k := CellFind(cells[..n], x);
      assert forall i :: 0 <= i < n ==> cells[..n][i] == cells[i];
      if k < n || cells[n].index == x then k else n + 1
  }

  /** One round: the object with the index of `n` takes in what `n` holds then, or `n` itself takes its place. */
  ghost function CellStep(m: Merging, n: CompletionOutput, aggregate: bool): (r: Merging)
    requires Closed(m) && n in m.heap
    ensures Closed(r) && r.heap.Keys == m.heap.Keys
  {
    var k := CellFind(m.cells, n.index);
    if !m.ok then m
    else if k == |m.cells| then m.(cells := m.cells + [n])
    else if !aggregate then m.(cells := m.cells[k := n])
    else
      var c := m.cells[k];
      var merged := Merge(m.heap[c], m.heap[n], true);
      if merged.Some? then m.(heap := m.heap[c := merged.value])
      else Merging(false, m.cells, m.heap[c := HalfMerged(m.heap[c], m.heap[n])])
  }

  ghost function CellFold(m: Merging, others: seq<CompletionOutput>, j: nat, aggregate: bool): (r: Merging)
    requires j <= |others| && Covers(m, others)
    ensures Closed(r) && r.heap.Keys == m.heap.Keys
  {
    if j == 0 then m else CellStep(CellFold(m, others, j - 1, aggregate), others[j - 1], aggregate)
  }

  lemma {:induction false} CellFoldStart(m: Merging, others: seq<CompletionOutput>, aggregate: bool)
    requires Covers(m, others)
    ensures CellFold(m, others, 0, aggregate) == m
  {
  }

  lemma {:induction false} CellFoldNext(m: Merging, others: seq<CompletionOutput>, j: nat, aggregate: bool)
    requires j < |others| && Covers(m, others)
    ensures others[j] in CellFold(m, others, j, aggregate).heap
    ensures CellFold(m, others, j + 1, aggregate) ==
            CellStep(CellFold(m, others, j, aggregate), others[j], aggregate)
  {
    hide CellStep;
  }

  lemma {:induction false} CellFailed(m: Merging, others: seq<CompletionOutput>, i: nat, j: nat, aggregate: bool)
    requires i <= j <= |others| && Covers(m, others)
    requires !CellFold(m, others, i, aggregate).ok
    ensures CellFold(m, others, j, aggregate) == CellFold(m, others, i, aggregate)
  {
    if i < j {
      CellFailed(m, others, i, j - 1, aggregate);
    }
  }

  // ---- An output added to itself --------------------------------------------------------------

  function Doubled(c: Completion): Completion {
    c.(text := c.text + c.text, tokens := c.tokens + c.tokens,
       logprobs := if c.logprobs.Some? then Some(c.logprobs.value + c.logprobs.value) else None)
  }

  lemma {:induction false} MergeSelf(c: Completion)
    ensures Merge(c, c, true) == Some(Doubled(c))
  {
    if c.logprobs.Some? && !NewLogprobs(c) {
      assert c.logprobs.value + c.logprobs.value == c.logprobs.value;
    }
  }

  /** With aggregation, an output that is added to itself never fails, keeps its objects and is doubled. */
  lemma {:induction false} SelfAddDoubles(m: Merging, j: nat)
    requires m.ok && Covers(m, m.cells) && j <= |m.cells|
    requires forall i, k :: 0 <= i < k < |m.cells| ==> m.cells[i].index != m.cells[k].index
    ensures var r := CellFold(m, m.cells, j, true);
            && r.ok && r.cells == m.cells
            && forall i {:trigger m.cells[i]} :: 0 <= i < |m.cells| ==>
                 r.heap[m.cells[i]] == if i < j then Doubled(m.heap[m.cells[i]]) else m.heap[m.cells[i]]
  {
    hide Merge, Doubled, CellStep, CellFold;
    CellFoldStart(m, m.cells, true);
    if j == 0 {
    } else {
      SelfAddDoubles(m, j - 1);
      CellFoldNext(m, m.cells, j - 1, true);
      var r := CellFold(m, m.cells, j - 1, true);
      assert CellFind(r.cells, m.cells[j - 1].index) == j - 1;
      SelfStep(r, j - 1);
    }
  }

  lemma {:induction false} SelfStep(r: Merging, k: nat)
    requires r.ok && Closed(r) && k < |r.cells| && CellFind(r.cells, r.cells[k].index) == k
    ensures CellStep(r, r.cells[k], true) == r.(heap := r.heap[r.cells[k] := Doubled(r.heap[r.cells[k]])])
  {
    hide Merge, Doubled;
    MergeSelf(r.heap[r.cells[k]]);
  }

  // ---- Objects that are not shared ------------------------------------------------------------

  ghost predicate Indexed(heap: map<CompletionOutput, Completion>) {
    forall c :: c in heap ==> heap[c].index == c.index
  }

  ghost function ValuesIn(heap: map<CompletionOutput, Completion>, cells: seq<CompletionOutput>): (r: seq<Completion>)
    requires forall c :: c in cells ==> c in heap
    ensures |r| == |cells| && forall i :: 0 <= i < |cells| ==> r[i] == heap[cells[i]]
  {
    seq(|cells|, i requires 0 <= i < |cells| => heap[cells[i]])
  }

  lemma {:induction false} ValuesAre(m: Merging)
    requires Closed(m) && forall c :: c in m.heap ==> m.heap[c] == c.Value()
    ensures Values(m.cells) == ValuesIn(m.heap, m.cells)
  {
    hide Values;
    ValuesAll(m.cells);
  }

  /** The first object with an index is the first value with it. */
  lemma {:induction false} CellFindIs(heap: map<CompletionOutput, Completion>, cells: seq<CompletionOutput>, x: int)
    requires Indexed(heap) && forall c :: c in cells ==> c in heap
    ensures CellFind(cells, x) == Find(ValuesIn(heap, cells), x)
  {
    hide CellFind, Find;
    FindUnique(ValuesIn(heap, cells), x, CellFind(cells, x));
  }

  /** A round with an object that is not in the output is a step on the values. */
  lemma {:induction false} CellStepApart(m: Merging, n: CompletionOutput, aggregate: bool)
    requires m.ok && Closed(m) && Indexed(m.heap) && n in m.heap && NoRepeats(m.cells) && n !in m.cells
    ensures var r := CellStep(m, n, aggregate);
            var o := Step(Some(ValuesIn(m.heap, m.cells)), m.heap[n], aggregate);
            && Indexed(r.heap) && OneAdded(m.cells, r.cells, n, CellFind(m.cells, n.index), aggregate)
            && (r.ok ==> o == Some(ValuesIn(r.heap, r.cells)))
            && (!r.ok ==> o.None? && ValuesIn(r.heap, r.cells) == HalfStep(ValuesIn(m.heap, m.cells), m.heap[n]))
            && (forall c :: c in m.heap && (c !in m.cells || c.index != n.index) ==> r.heap[c] == m.heap[c])
  {
    hide CellFind, Find;
    CellFindIs(m.heap, m.cells, n.index);
    var r, k := CellStep(m, n, aggregate), CellFind(m.cells, n.index);
    var vs, vs' := ValuesIn(m.heap, m.cells), ValuesIn(r.heap, r.cells);
    if k == |m.cells| {
      assert vs' == vs + [m.heap[n]];
    } else {
      assert vs' == vs[k := vs'[k]];
    }
  }

  /** Adding an output without objects in common merges the values. */
  lemma {:induction false} CellFoldApart(m: Merging, others: seq<CompletionOutput>, j: nat, aggregate: bool)
    requires m.ok && Covers(m, others) && Indexed(m.heap)
    requires j <= |others| && Disjointed(m.cells, others)
    ensures Apartly(m, others, j, aggregate, CellFold(m, others, j, aggregate))
  {
    hide CellStep, CellFind, Step, Find, HalfStep, FailsAt, Shares, NoRepeats, NoneOf, Distinct, Fold, OneAdded;
    hide Indexed, Merge, Apartly, CellFold, Covers, Closed;
    CellFoldStart(m, others, aggregate);
    if j == 0 {
      ApartlyStart(m, others, aggregate);
    } else {
      CellFoldApart(m, others, j - 1, aggregate);
      CellFoldNext(m, others, j - 1, aggregate);
      var r := CellFold(m, others, j - 1, aggregate);
      if r.ok {
        ApartlyNext(m, others, j - 1, aggregate, r);
      } else {
        ApartlyFailed(m, others, j - 1, aggregate, r);
      }
    }
  }

  /** What adding the first `j` of `others` to `m` comes to, on values. */
  ghost predicate Apartly(m: Merging, others: seq<CompletionOutput>, j: nat, aggregate: bool, r: Merging)
    requires Covers(m, others) && j <= |others|
    requires Closed(r) && r.heap.Keys == m.heap.Keys
  {
    var start, ns := ValuesIn(m.heap, m.cells), ValuesIn(m.heap, others);
    && Indexed(r.heap) && Shares(m.cells, r.cells, others, aggregate)
    && (if r.ok then
          && Fold(Some(start), ns, j, aggregate) == Some(ValuesIn(r.heap, r.cells))
          && NoRepeats(r.cells) && NoneOf(r.cells, others, j)
        else
          && Fold(Some(start), ns, j, aggregate).None?
          && exists i :: FailsAt(start, ns, i, ValuesIn(r.heap, r.cells)))
    && (forall k :: 0 <= k < |others| && ((r.ok && j <= k) || Distinct(ns)) ==> r.heap[others[k]] == m.heap[others[k]])
  }

  lemma {:induction false} ApartlyStart(m: Merging, others: seq<CompletionOutput>, aggregate: bool)
    requires m.ok && Covers(m, others) && Indexed(m.heap)
    requires Disjointed(m.cells, others)
    ensures Apartly(m, others, 0, aggregate, m)
  {
    hide Indexed, Find;
    SharesStart(m.cells, others, aggregate);
    FoldStart(Some(ValuesIn(m.heap, m.cells)), ValuesIn(m.heap, others), aggregate);
  }

  lemma {:induction false} ApartlyNext(m: Merging, others: seq<CompletionOutput>, j: nat, aggregate: bool, r: Merging)
    requires m.ok && Covers(m, others) && Indexed(m.heap)
    requires j < |others| && Disjointed(m.cells, others) && r.ok && Closed(r) && r.heap.Keys == m.heap.Keys
    requires Apartly(m, others, j, aggregate, r)
    ensures Apartly(m, others, j + 1, aggregate, CellStep(r, others[j], aggregate))
  {
    hide CellStep, CellFind, Step, Find, HalfStep, Shares, NoRepeats, NoneOf, Distinct, Fold, OneAdded, FailsAt, Lacks;
    hide Merge, Indexed;
    var start, ns, n := ValuesIn(m.heap, m.cells), ValuesIn(m.heap, others), others[j];
    var r' := CellStep(r, n, aggregate);
    NotAmong(r.cells, others, j);
    CellStepApart(r, n, aggregate);
    FoldNext(Some(start), ns, j, aggregate);
    SharesNext(m.cells, r.cells, r'.cells, others, j, CellFind(r.cells, n.index), aggregate);
    OthersStay(m, others, j, r, r');
    if !r'.ok {
      StepFails(ValuesIn(r.heap, r.cells), ns[j], aggregate);
      AsFailsAt(start, ns, j, ValuesIn(r'.heap, r'.cells));
    }
  }

  /** The objects of the other output that are still to come, or have an index of their own, hold what they held. */
  lemma {:induction false} OthersStay(m: Merging, others: seq<CompletionOutput>, j: nat, r: Merging, r': Merging)
    requires Covers(m, others) && Indexed(m.heap)
    requires j < |others| && r.heap.Keys == m.heap.Keys == r'.heap.Keys && NoneOf(r.cells, others, j)
    requires forall c :: c in r.heap && (c !in r.cells || c.index != others[j].index) ==> r'.heap[c] == r.heap[c]
    requires var ns := ValuesIn(m.heap, others);
             forall k :: 0 <= k < |others| && (j <= k || Distinct(ns)) ==> r.heap[others[k]] == m.heap[others[k]]
    ensures var ns := ValuesIn(m.heap, others);
            forall k :: 0 <= k < |others| && (j < k || Distinct(ns)) ==> r'.heap[others[k]] == m.heap[others[k]]
  {
    hide Distinct;
    var ns := ValuesIn(m.heap, others);
    forall k | 0 <= k < |others| && (j < k || Distinct(ns))
      ensures r'.heap[others[k]] == m.heap[others[k]]
    {
      if j <= k {
        assert others[k] !in r.cells;
      } else {
        OtherIndices(ns, j);
        assert ns[k].index != ns[j].index;
      }
    }
  }

  lemma {:induction false} ApartlyFailed(m: Merging, others: seq<CompletionOutput>, j: nat, aggregate: bool, r: Merging)
    requires Covers(m, others)
    requires j < |others| && !r.ok && Closed(r) && r.heap.Keys == m.heap.Keys && Apartly(m, others, j, aggregate, r)
    ensures CellStep(r, others[j], aggregate) == r && Apartly(m, others, j + 1, aggregate, r)
  {
    hide CellFind, Find, Shares, Distinct, FailsAt, Indexed, Merge;
    FoldNext(Some(ValuesIn(m.heap, m.cells)), ValuesIn(m.heap, others), j, aggregate);
  }

  class RequestOutput {
    var finished: bool
    var kvParams: int
    var outputs: seq<CompletionOutput>

    ghost function View(): Output
      reads this, outputs
    {
      Output(finished, kvParams, Values(outputs))
    }

    constructor (finished: bool, kvParams: int, outputs: seq<CompletionOutput>)
      ensures this.finished == finished && this.kvParams == kvParams && this.outputs == outputs
    {
      this.finished, this.kvParams, this.outputs := finished, kvParams, outputs;
    }

    /** The other output has no completion object in common with this one. */
    ghost predicate Apart(next: RequestOutput)
      reads this, next
    {
      && next != this && Disjointed(outputs, next.outputs)
    }

    /** One round of the outer loop. */
    method AddOne(n: CompletionOutput, aggregate: bool, ghost all: set<CompletionOutput>) returns (ok: bool)
      requires n in all && forall c :: c in outputs ==> c in all
      modifies `outputs, outputs
      ensures CellStep(Merging(true, old(outputs), old(Heap(all))), n, aggregate) == Merging(ok, outputs, Heap(all))
      ensures forall i :: 0 <= i < |outputs| ==> outputs[i] in old(outputs) || outputs[i] == n
    {
      hide Merge, HalfMerged, Heap, CellFind;
      HeapIs(all);
      ghost var heap := Heap(all);
      var i := Position(outputs, n.index);
      if i < |outputs| && aggregate {
        var c := outputs[i];
        ok := c.Extend(n.Value());
        HeapIs(all);
        assert Heap(all) == heap[c := c.Value()];
      } else {
        outputs := if i < |outputs| then outputs[i := n] else outputs + [n];
        HeapIs(all);
        assert Heap(all) == heap;
        ok := true;
      }
    }

    /** The outer loop. */
    method AddAll(cells: seq<CompletionOutput>, aggregate: bool) returns (ok: bool)
      modifies `outputs, outputs, cells
      ensures var all := Objects(old(outputs), cells);
              CellFold(Merging(true, old(outputs), old(Heap(all))), cells, |cells|, aggregate) ==
              Merging(ok, outputs, Heap(all))
    {
      hide CellStep, CellFold, Heap, Objects, Covers, Closed;
      ghost var all := Objects(outputs, cells);
      ghost var first := Merging(true, outputs, Heap(all));
      ObjectsAre(outputs, cells);
      HeapCovers(outputs, cells);
      CellFoldStart(first, cells, aggregate);
      for j := 0 to |cells|
        invariant forall i :: 0 <= i < |outputs| ==> outputs[i] in old(outputs) || outputs[i] in cells
        invariant CellFold(first, cells, j, aggregate) == Merging(true, outputs, Heap(all))
      {
        CellFoldNext(first, cells, j, aggregate);
        ok := AddOne(cells[j], aggregate, all);
        if !ok {
          CellFailed(first, cells, j + 1, |cells|, aggregate);
          return;
        }
      }
      return true;
    }

    /** `add`, on any two outputs: false when the assertion on logprobs fails, after the completions before it were
        merged.  When the outputs have no completion object in common, the values are merged; and if no index
        repeats in the other output, its completions are as before. */
    method Add(next: RequestOutput, aggregate: bool) returns (ok: bool)
      modifies this, outputs, next.outputs
      ensures finished == (old(finished) || old(next.finished)) && kvParams == old(next.kvParams)
      ensures var all := Objects(old(outputs), old(next.outputs));
              var start, others := Merging(true, old(outputs), old(Heap(all))), old(next.outputs);
              CellFold(start, others, |others|, aggregate) == Merging(ok, outputs, Heap(all))
      ensures old(Apart(next)) ==>
                && Shares(old(outputs), outputs, next.outputs, aggregate)
                && ok == Added(old(View()), old(next.View()), aggregate).Some?
                && (ok ==> View() == Added(old(View()), old(next.View()), aggregate).value)
                && (!ok ==> exists j :: FailsAt(old(View()).outputs, old(next.View()).outputs, j, Values(outputs)))
                && (Distinct(old(next.View()).outputs) ==>
                      forall c :: c in next.outputs ==> c.Value() == old(c.Value()))
    {
      hide Values, Fold, Distinct, Shares, FailsAt, Disjointed, CellFold, Heap, Objects, Covers, Closed, Indexed;
      hide NoRepeats, NoneOf;
      ghost var cells, others, all := outputs, next.outputs, Objects(outputs, next.outputs);
      ghost var heap := Heap(all);
      ObjectsAre(cells, others);
      HeapCovers(cells, others);
      HeapIs(all);
      ValuesAre(Merging(true, cells, heap));
      ValuesAre(Merging(true, others, heap));
      finished := finished || next.finished;
      kvParams := next.kvParams;
      assert Heap(all) == heap by {
        HeapIs(all);
      }
      ok := AddAll(next.outputs, aggregate);
      HeapIs(all);
      if Disjointed(cells, others) {
        CellFoldApart(Merging(true, cells, heap), others, |others|, aggregate);
        ValuesAre(Merging(ok, outputs, Heap(all)));
      }
    }

    /** The inner loop, up to its break. */
    static method Position(outs: seq<CompletionOutput>, x: int) returns (i: nat)
      ensures i == CellFind(outs, x)
    {
      i := 0;
      while i < |outs| && outs[i].index != x
        invariant i <= |outs| && forall k :: 0 <= k < i ==> outs[k].index != x
      {
        i := i + 1;
      }
    }
  }

  /** An appended completion is shared: adding `a` and then `b` to an output changes the completion of `a`. */
  method LaterAddReachesBack(out: RequestOutput, a: RequestOutput, b: RequestOutput) returns (ok: bool)
    requires out != a && out != b && out.outputs == [] && |a.outputs| == 1 && |b.outputs| == 1
    requires a.outputs[0] != b.outputs[0] && a.outputs[0].index == b.outputs[0].index
    requires Merge(a.outputs[0].Value(), b.outputs[0].Value(), true).Some?
    modifies out, a.outputs, b.outputs
    ensures ok && a.outputs == old(a.outputs)
    ensures a.outputs[0].Value() == Merge(old(a.outputs[0].Value()), old(b.outputs[0].Value()), true).value
  {
    hide Find, Merge, Values, Fold, Shares, FailsAt, Distinct, CellFold, Heap, Objects, Covers, Closed;
    ghost var x, y := a.outputs[0].Value(), b.outputs[0].Value();
    OneValue(a.outputs);
    OneValue(b.outputs);
    OneFolds(x, y);
    assert Values(out.outputs) == [];
    ok := out.Add(a, true);
    SharesOne(out.outputs, a.outputs);
    OneValue(b.outputs);
    ok := out.Add(b, true);
    SharesSame(a.outputs, out.outputs, b.outputs);
    OneValue(a.outputs);
  }

  lemma {:induction false} OneValue(cells: seq<CompletionOutput>)
    requires |cells| == 1
    ensures Values(cells) == [cells[0].Value()]
  {
    ValuesAt(cells, 0);
  }

  lemma {:induction false} SharesOne(cells: seq<CompletionOutput>, others: seq<CompletionOutput>)
    requires Shares([], cells, others, true) && |cells| == |others| == 1
    ensures cells == others
  {
    assert cells[0] in others;
  }

  lemma {:induction false} SharesSame(cells: seq<CompletionOutput>, cells': seq<CompletionOutput>,
                                      others: seq<CompletionOutput>)
    requires Shares(cells, cells', others, true) && |cells'| == |cells|
    ensures cells' == cells
  {
  }

  lemma {:induction false} OneFolds(x: Completion, y: Completion)
    requires x.index == y.index
    ensures Fold(Some([]), [x], 1, true) == Some([x])
    ensures Merge(x, y, true).Some? ==> Fold(Some([x]), [y], 1, true) == Some([Merge(x, y, true).value])
  {
    hide Merge;
    FindUnique([], x.index, 0);
    FindUnique([x], x.index, 0);
    OneStep(Some([]), x);
    OneStep(Some([x]), y);
    assert [] + [x] == [x];
    assert Merge(x, y, true).Some? ==> [x][0 := Merge(x, y, true).value] == [Merge(x, y, true).value];
  }

  /** A step that fails. */
  function HalfStep(outs: seq<Completion>, n: Completion): seq<Completion> {
    var k := Find(outs, n.index);
    if k < |outs| then outs[k := HalfMerged(outs[k], n)] else outs
  }

  lemma {:induction false} OtherIndices(ns: seq<Completion>, j: nat)
    requires Distinct(ns) && j < |ns|
    ensures forall k :: 0 <= k < |ns| && k != j ==> ns[k].index != ns[j].index
  {
  }

  /** Completion `j` is the first that cannot be merged, and it is merged by half. */
  ghost predicate FailsAt(start: seq<Completion>, ns: seq<Completion>, j: nat, end: seq<Completion>) {
    && j < |ns|
    && (var o := Fold(Some(start), ns, j, true);
        o.Some? && Lacks(o.value, ns[j]) && end == HalfStep(o.value, ns[j]))
  }

  lemma {:induction false} AsFailsAt(start: seq<Completion>, ns: seq<Completion>, j: nat, end: seq<Completion>)
    requires j < |ns| && Fold(Some(start), ns, j, true).Some?
    requires var o := Fold(Some(start), ns, j, true).value; Lacks(o, ns[j]) && end == HalfStep(o, ns[j])
    ensures FailsAt(start, ns, j, end)
  {
  }

  /** A failure is never undone. */
  lemma {:induction false} Failed(start: seq<Completion>, cs: seq<Completion>, i: nat, j: nat, aggregate: bool)
    requires i <= j <= |cs| && Fold(Some(start), cs, i, aggregate).None?
    ensures Fold(Some(start), cs, j, aggregate).None?
  {
    if i < j {
      Failed(start, cs, i, j - 1, aggregate);
    }
  }

  // ---- Merging steps of different and of equal index ------------------------------------------

  predicate Has(outs: seq<Completion>, x: int) {
    Find(outs, x) < |outs|
  }

  lemma {:induction false} FindAppend(outs: seq<Completion>, n: Completion, x: int)
    ensures Find(outs + [n], x) == if Has(outs, x) || n.index == x then Find(outs, x) else |outs| + 1
  {
    assert (outs + [n])[..|outs|] == outs;
  }

  /** Replacing a completion by one of the same index moves nothing. */
  lemma {:induction false} FindUpdate(outs: seq<Completion>, k: nat, c: Completion, x: int)
    requires k < |outs| && c.index == outs[k].index
    ensures Find(outs[k := c], x) == Find(outs, x)
  {
    FindIs(outs, x);
    FindUnique(outs[k := c], x, Find(outs, x));
  }

  lemma {:induction false} MergeIndex(c: Completion, n: Completion, aggregate: bool)
    requires c.index == n.index && Merge(c, n, aggregate).Some?
    ensures Merge(c, n, aggregate).value.index == n.index
  {
  }

  /** What a step does to the place of every index. */
  lemma {:induction false} StepFind(outs: seq<Completion>, n: Completion, aggregate: bool, x: int)
    requires Step(Some(outs), n, aggregate).Some?
    ensures var outs' := Step(Some(outs), n, aggregate).value;
            && (Has(outs, x) || x == n.index ==> Find(outs', x) == Find(outs, x) && Has(outs', x))
            && (!Has(outs, x) && x != n.index ==> !Has(outs', x))
            && (Has(outs, x) && x != n.index ==> outs'[Find(outs, x)] == outs[Find(outs, x)])
            && |outs'| == (if Has(outs, n.index) then |outs| else |outs| + 1)
  {
    var k := Find(outs, n.index);
    FindIs(outs, n.index);
    FindIs(outs, x);
    if k == |outs| {
      FindAppend(outs, n, x);
    } else {
      MergeIndex(outs[k], n, aggregate);
      FindUpdate(outs, k, Merge(outs[k], n, aggregate).value, x);
    }
  }

  /** Steps of different index commute once the later one's index is there. */
  lemma {:induction false} Commute(outs: seq<Completion>, y: Completion, n: Completion, aggregate: bool)
    requires y.index != n.index && Has(outs, n.index)
    ensures Step(Step(Some(outs), y, aggregate), n, aggregate) == Step(Step(Some(outs), n, aggregate), y, aggregate)
  {
    var p, q := Step(Some(outs), y, aggregate), Step(Some(outs), n, aggregate);
    if p.Some? {
      StepFind(outs, y, aggregate, n.index);
    }
    if q.Some? {
      StepFind(outs, n, aggregate, y.index);
    }
    FindIs(outs, n.index);
    FindIs(outs, y.index);
    var i, k := Find(outs, n.index), Find(outs, y.index);
    var b := Merge(outs[i], n, aggregate);
    hide Find, Merge;
    if k < |outs| {
      var a := Merge(outs[k], y, aggregate);
      if a.Some? && b.Some? {
        assert outs[k := a.value][i := b.value] == outs[i := b.value][k := a.value];
      }
    } else if b.Some? {
      assert (outs + [y])[i := b.value] == outs[i := b.value] + [y];
    }
  }

  /** New logprobs onto a completion that has some, through one that has none. */
  predicate Hole(outs: seq<Completion>, d: Completion, n: Completion, aggregate: bool) {
    && aggregate && NewLogprobs(n) && d.logprobs.None?
    && Has(outs, d.index) && outs[Find(outs, d.index)].logprobs.Some?
  }

  /** Two steps of the same index are the step of their merge, unless there is a hole. */
  lemma {:induction false} MergeTwice(outs: seq<Completion>, d: Completion, n: Completion, aggregate: bool)
    requires d.index == n.index && !Hole(outs, d, n, aggregate)
    ensures var m := Merge(d, n, aggregate);
            Step(Step(Some(outs), d, aggregate), n, aggregate) ==
            if m.None? then None else Step(Some(outs), m.value, aggregate)
  {
    var k := Find(outs, d.index);
    FindIs(outs, d.index);
    var m := Merge(d, n, aggregate);
    if m.Some? {
      MergeIndex(d, n, aggregate);
    }
    if k == |outs| {
      FindAppend(outs, d, n.index);
      hide Find, Merge;
      assert m.Some? ==> (outs + [d])[k := m.value] == outs + [m.value];
    } else {
      var c := outs[k];
      var cd := Merge(c, d, aggregate);
      MergeAssociative(c, d, n, aggregate);
      if cd.Some? {
        MergeIndex(c, d, aggregate);
        FindUpdate(outs, k, cd.value, n.index);
      }
      hide Find, Merge;
      if m.Some? && cd.Some? {
        var e := Merge(cd.value, n, aggregate);
        assert e.Some? ==> outs[k := cd.value][k := e.value] == outs[k := e.value];
      }
    }
  }

  /** Merging of three completions. */
  lemma {:induction false} MergeAssociative(c: Completion, d: Completion, n: Completion, aggregate: bool)
    requires !(aggregate && NewLogprobs(n) && d.logprobs.None? && c.logprobs.Some?)
    ensures var cd, dn := Merge(c, d, aggregate), Merge(d, n, aggregate);
            (if cd.None? then None else Merge(cd.value, n, aggregate)) ==
            (if dn.None? then None else Merge(c, dn.value, aggregate))
  {
    assert c.text + d.text + n.text == c.text + (d.text + n.text);
    assert c.tokens + d.tokens + n.tokens == c.tokens + (d.tokens + n.tokens);
    if c.logprobs.Some? && d.logprobs.Some? && n.logprobs.Some? {
      assert c.logprobs.value + d.logprobs.value + n.logprobs.value ==
               c.logprobs.value + (d.logprobs.value + n.logprobs.value);
      assert d.logprobs.value == [] ==> c.logprobs.value + d.logprobs.value == c.logprobs.value;
    }
  }

  // ---- Associativity --------------------------------------------------------------------------

  lemma {:induction false} FoldNext(o: Option<seq<Completion>>, cs: seq<Completion>, j: nat, aggregate: bool)
    requires j < |cs|
    ensures Fold(o, cs, j + 1, aggregate) == Step(Fold(o, cs, j, aggregate), cs[j], aggregate)
    ensures Fold(o, cs, 0, aggregate) == o
  {
  }

  lemma {:induction false} FoldStart(o: Option<seq<Completion>>, cs: seq<Completion>, aggregate: bool)
    ensures Fold(o, cs, 0, aggregate) == o
  {
  }

  /** Folding does not look at later completions. */
  lemma {:induction false} FoldPrefix(o: Option<seq<Completion>>, a: seq<Completion>, b: seq<Completion>, j: nat,
                                      aggregate: bool)
    requires j <= |a| && j <= |b| && forall i :: 0 <= i < j ==> a[i] == b[i]
    ensures Fold(o, a, j, aggregate) == Fold(o, b, j, aggregate)
  {
    if j == 0 {
    } else {
      FoldPrefix(o, a, b, j - 1, aggregate);
    }
  }

  /** Indices that were folded in are there; other indices are as before. */
  lemma {:induction false} FoldFind(acc: seq<Completion>, cs: seq<Completion>, j: nat, aggregate: bool, x: int)
    requires j <= |cs| && Fold(Some(acc), cs, j, aggregate).Some?
    ensures var outs := Fold(Some(acc), cs, j, aggregate).value;
            && (Has(outs, x) <==> Has(acc, x) || exists i :: 0 <= i < j && cs[i].index == x)
            && ((forall i :: 0 <= i < j ==> cs[i].index != x) && Has(acc, x) ==>
                  Find(outs, x) == Find(acc, x) && outs[Find(outs, x)] == acc[Find(acc, x)])
  {
    if j == 0 {
    } else {
      FoldFind(acc, cs, j - 1, aggregate, x);
      var before := Fold(Some(acc), cs, j - 1, aggregate).value;
      StepFind(before, cs[j - 1], aggregate, x);
      hide Find, Step, Merge;
      assert Fold(Some(acc), cs, j, aggregate) == Step(Some(before), cs[j - 1], aggregate);
    }
  }

  /** Distinct indices stay distinct. */
  lemma {:induction false} StepDistinct(outs: seq<Completion>, n: Completion, aggregate: bool)
    requires Distinct(outs) && Step(Some(outs), n, aggregate).Some?
    ensures Distinct(Step(Some(outs), n, aggregate).value)
  {
    var k := Find(outs, n.index);
    FindIs(outs, n.index);
    if k < |outs| {
      MergeIndex(outs[k], n, aggregate);
    }
  }

  lemma {:induction false} FoldDistinct(acc: seq<Completion>, cs: seq<Completion>, j: nat, aggregate: bool)
    requires Distinct(acc) && j <= |cs| && Fold(Some(acc), cs, j, aggregate).Some?
    ensures Distinct(Fold(Some(acc), cs, j, aggregate).value)
  {
    if j == 0 {
    } else {
      FoldDistinct(acc, cs, j - 1, aggregate);
      StepDistinct(Fold(Some(acc), cs, j - 1, aggregate).value, cs[j - 1], aggregate);
    }
  }

  /** Merging `n` into the list `a` first, or after `a` is folded, is the same. */
  lemma {:induction false} MergedInside(acc: seq<Completion>, a: seq<Completion>, n: Completion, i: nat, j: nat,
                                        aggregate: bool)
    requires Distinct(a) && i < j <= |a| && a[i].index == n.index && !Hole(acc, a[i], n, aggregate)
    ensures var m := Merge(a[i], n, aggregate);
            Step(Fold(Some(acc), a, j, aggregate), n, aggregate) ==
            if m.None? then None else Fold(Some(acc), a[i := m.value], j, aggregate)
    decreases j
  {
    hide Fold, Find, Step, Merge;
    var m := Merge(a[i], n, aggregate);
    var o, y := Fold(Some(acc), a, j - 1, aggregate), a[j - 1];
    FoldNext(Some(acc), a, j - 1, aggregate);
    StepNone(n, aggregate);
    StepNone(y, aggregate);
    if m.Some? {
      FoldPrefix(Some(acc), a, a[i := m.value], i, aggregate);
      FoldNext(Some(acc), a[i := m.value], j - 1, aggregate);
      StepNone(m.value, aggregate);
    }
    if o.Some? {
      FoldFind(acc, a, j - 1, aggregate, n.index);
    }
    if j == i + 1 {
      if o.Some? {
        MergeTwice(o.value, a[i], n, aggregate);
      }
    } else {
      MergedInside(acc, a, n, i, j - 1, aggregate);
      if o.Some? {
        Commute(o.value, y, n, aggregate);
      }
    }
  }

  /** `n` finds a completion in `a` without logprobs, in front of one in `acc` that has some. */
  predicate HoleAt(acc: seq<Completion>, a: seq<Completion>, n: Completion, aggregate: bool) {
    Has(a, n.index) && Hole(acc, a[Find(a, n.index)], n, aggregate)
  }

  predicate NoHole(acc: seq<Completion>, a: seq<Completion>, b: seq<Completion>, aggregate: bool) {
    forall j :: 0 <= j < |b| ==> !HoleAt(acc, a, b[j], aggregate)
  }

  /** With distinct indices in `b`, its step `j` finds what `a` has. */
  lemma {:induction false} StillThere(a: seq<Completion>, b: seq<Completion>, j: nat, aggregate: bool)
    requires Distinct(b) && j < |b| && Fold(Some(a), b, j, aggregate).Some?
    ensures var outs, x := Fold(Some(a), b, j, aggregate).value, b[j].index;
            && (Has(outs, x) <==> Has(a, x))
            && (Has(a, x) ==> Find(outs, x) == Find(a, x) && outs[Find(outs, x)] == a[Find(a, x)])
  {
    hide Find, Fold;
    FoldFind(a, b, j, aggregate, b[j].index);
  }

  lemma {:induction false} FoldsAgree(acc: seq<Completion>, a: seq<Completion>, b: seq<Completion>, k: nat,
                                      aggregate: bool)
    requires Distinct(a) && Distinct(b) && k <= |b| && NoHole(acc, a, b, aggregate)
    ensures var left, ab := Fold(Fold(Some(acc), a, |a|, aggregate), b, k, aggregate), Fold(Some(a), b, k, aggregate);
            left == if ab.None? then None else Fold(Some(acc), ab.value, |ab.value|, aggregate)
  {
    hide Fold, Find, Step;
    var left := Fold(Some(acc), a, |a|, aggregate);
    if k == 0 {
      FoldStart(left, b, aggregate);
      FoldStart(Some(a), b, aggregate);
    } else {
      FoldsAgree(acc, a, b, k - 1, aggregate);
      FoldNext(left, b, k - 1, aggregate);
      FoldNext(Some(a), b, k - 1, aggregate);
      var ab, n := Fold(Some(a), b, k - 1, aggregate), b[k - 1];
      if ab.None? {
        StepNone(n, aggregate);
      } else {
        StillThere(a, b, k - 1, aggregate);
        FoldDistinct(a, b, k - 1, aggregate);
        assert !HoleAt(acc, a, n, aggregate);
        StepInside(acc, ab.value, n, aggregate);
      }
    }
  }

  lemma {:induction false} StepNone(n: Completion, aggregate: bool)
    ensures Step(None, n, aggregate) == None
  {
  }

  lemma {:induction false} StepInside(acc: seq<Completion>, a: seq<Completion>, n: Completion, aggregate: bool)
    requires Distinct(a) && !HoleAt(acc, a, n, aggregate)
    ensures var an := Step(Some(a), n, aggregate);
            Step(Fold(Some(acc), a, |a|, aggregate), n, aggregate) ==
            if an.None? then None else Fold(Some(acc), an.value, |an.value|, aggregate)
  {
    var i := Find(a, n.index);
    FindIs(a, n.index);
    if i < |a| {
      hide Find, Merge;
      MergedInside(acc, a, n, i, |a|, aggregate);
    } else {
      FoldPrefix(Some(acc), a, a + [n], |a|, aggregate);
    }
  }

  /** With a hole, `a` and `b` cannot be merged. */
  lemma {:induction false} HoleFails(acc: seq<Completion>, a: seq<Completion>, b: seq<Completion>, j: nat,
                                     aggregate: bool)
    requires Distinct(b) && j < |b| && HoleAt(acc, a, b[j], aggregate)
    ensures Fold(Some(a), b, |b|, aggregate).None?
  {
    if Fold(Some(a), b, j, aggregate).Some? {
      StillThere(a, b, j, aggregate);
    }
    Failed(a, b, j + 1, |b|, aggregate);
  }

  /** Adding `a` and then `b`, or their merge. */
  function AddedTwice(acc: Output, a: Output, b: Output, aggregate: bool): Option<Output> {
    var first := Added(acc, a, aggregate);
    if first.None? then None else Added(first.value, b, aggregate)
  }

  function AddedMerged(acc: Output, a: Output, b: Output, aggregate: bool): Option<Output> {
    var ab := Added(a, b, aggregate);
    if ab.None? then None else Added(acc, ab.value, aggregate)
  }

  // ---- When a merge fails -------------------------------------------------------------------

  /** `n` brings logprobs for a completion that has none. */
  predicate Lacks(outs: seq<Completion>, n: Completion) {
    n.logprobs.Some? && n.logprobs.value != [] && Has(outs, n.index) && outs[Find(outs, n.index)].logprobs.None?
  }

  /** Some completion of `cs` brings logprobs for one of `outs` that has none. */
  predicate AnyLacks(outs: seq<Completion>, cs: seq<Completion>, j: nat)
    requires j <= |cs|
  {
    exists i :: 0 <= i < j && Lacks(outs, cs[i])
  }

  /** The completions of `a`, or those of `b` after them, bring logprobs where there are none: an index is looked
      for in `acc`, and in `a` if `acc` does not have it. */
  predicate BringsTooLate(acc: seq<Completion>, a: seq<Completion>, b: seq<Completion>) {
    || AnyLacks(acc, a, |a|)
    || exists j :: 0 <= j < |b| && (Lacks(acc, b[j]) || (!Has(acc, b[j].index) && Lacks(a, b[j])))
  }

  lemma {:induction false} StepFails(outs: seq<Completion>, n: Completion, aggregate: bool)
    ensures Step(Some(outs), n, aggregate).None? <==> aggregate && Lacks(outs, n)
  {
    hide Find;
  }

  /** Adding fails exactly when some completion brings logprobs for one that has none. */
  lemma {:induction false} FoldFailsIff(acc: seq<Completion>, cs: seq<Completion>, j: nat, aggregate: bool)
    requires Distinct(cs) && j <= |cs|
    ensures Fold(Some(acc), cs, j, aggregate).None? <==> aggregate && AnyLacks(acc, cs, j)
  {
    hide Find, Step, Fold, Merge, NewLogprobs;
    if j == 0 {
      FoldStart(Some(acc), cs, aggregate);
    } else {
      FoldFailsIff(acc, cs, j - 1, aggregate);
      FoldNext(Some(acc), cs, j - 1, aggregate);
      var o, n := Fold(Some(acc), cs, j - 1, aggregate), cs[j - 1];
      if o.None? {
        Failed(acc, cs, j - 1, j, aggregate);
      } else {
        StepFails(o.value, n, aggregate);
        StillThere(acc, cs, j - 1, aggregate);
        assert Lacks(o.value, n) == Lacks(acc, n);
      }
    }
  }

  /** A step keeps whether there are logprobs, and brings those of a new index. */
  lemma {:induction false} StepStatus(outs: seq<Completion>, n: Completion, x: int)
    requires Step(Some(outs), n, true).Some? && (Has(outs, x) || x == n.index)
    ensures var outs' := Step(Some(outs), n, true).value;
            && Has(outs', x)
            && outs'[Find(outs', x)].logprobs.None? ==
               if Has(outs, x) then outs[Find(outs, x)].logprobs.None? else n.logprobs.None?
  {
    hide Find;
    StepFind(outs, n, true, x);
  }

  /** After adding `cs`, an index has logprobs as `acc` had, or else as `cs` brought. */
  lemma {:induction false} FoldStatus(acc: seq<Completion>, cs: seq<Completion>, j: nat, k: nat, x: int)
    requires Distinct(cs) && j <= |cs| && Fold(Some(acc), cs, j, true).Some?
    requires Has(acc, x) || (k < j && cs[k].index == x)
    ensures var outs := Fold(Some(acc), cs, j, true).value;
            && Has(outs, x)
            && outs[Find(outs, x)].logprobs.None? ==
               if Has(acc, x) then acc[Find(acc, x)].logprobs.None? else cs[k].logprobs.None?
  {
    hide Find, Step, Fold, Merge;
    if j == 0 {
      FoldStart(Some(acc), cs, true);
    } else {
      FoldNext(Some(acc), cs, j - 1, true);
      if Fold(Some(acc), cs, j - 1, true).None? {
        Failed(acc, cs, j - 1, j, true);
      }
      var outs := Fold(Some(acc), cs, j - 1, true).value;
      if Has(acc, x) || k < j - 1 {
        FoldStatus(acc, cs, j - 1, k, x);
      } else {
        FoldFind(acc, cs, j - 1, true, x);
      }
      StepStatus(outs, cs[j - 1], x);
    }
  }

  /** What `n` finds after `a` was added to `acc`. */
  lemma {:induction false} LacksAfter(acc: seq<Completion>, a: seq<Completion>, n: Completion)
    requires Distinct(a) && Fold(Some(acc), a, |a|, true).Some?
    ensures Lacks(Fold(Some(acc), a, |a|, true).value, n) <==> Lacks(acc, n) || (!Has(acc, n.index) && Lacks(a, n))
  {
    hide Find, Fold, NewLogprobs;
    var x := n.index;
    var k := Find(a, x);
    FindIs(a, x);
    FoldFind(acc, a, |a|, true, x);
    if Has(acc, x) || k < |a| {
      FoldStatus(acc, a, |a|, k, x);
    }
  }

  /** Adding `a` and then `b` fails exactly when logprobs come too late, which the three lists show. */
  lemma {:induction false} AddedTwiceFailsIff(acc: Output, a: Output, b: Output, aggregate: bool)
    requires Distinct(a.outputs) && Distinct(b.outputs)
    ensures AddedTwice(acc, a, b, aggregate).None? <==>
            aggregate && BringsTooLate(acc.outputs, a.outputs, b.outputs)
  {
    hide Fold, Lacks;
    FoldFailsIff(acc.outputs, a.outputs, |a.outputs|, aggregate);
    var first := Fold(Some(acc.outputs), a.outputs, |a.outputs|, aggregate);
    if first.Some? {
      FoldFailsIff(first.value, b.outputs, |b.outputs|, aggregate);
      if aggregate {
        forall j | 0 <= j < |b.outputs|
          ensures Lacks(first.value, b.outputs[j]) <==>
                  || Lacks(acc.outputs, b.outputs[j])
                  || (!Has(acc.outputs, b.outputs[j].index) && Lacks(a.outputs, b.outputs[j]))
        {
          LacksAfter(acc.outputs, a.outputs, b.outputs[j]);
        }
      }
    }
  }

  /** Merging is associative exactly when logprobs come too late or there is no hole; so it always is when
      outputs replace each other. */
  lemma {:induction false} AddAssociative(acc: Output, a: Output, b: Output, aggregate: bool)
    requires Distinct(a.outputs) && Distinct(b.outputs)
    ensures AddedTwice(acc, a, b, aggregate) == AddedMerged(acc, a, b, aggregate) <==>
            || (aggregate && BringsTooLate(acc.outputs, a.outputs, b.outputs))
            || NoHole(acc.outputs, a.outputs, b.outputs, aggregate)
    ensures !aggregate ==> AddedTwice(acc, a, b, aggregate) == AddedMerged(acc, a, b, aggregate)
  {
    hide Fold, BringsTooLate, Find;
    AddedTwiceFailsIff(acc, a, b, aggregate);
    FoldNone(b.outputs, |b.outputs|, aggregate);
    if NoHole(acc.outputs, a.outputs, b.outputs, aggregate) {
      FoldsAgree(acc.outputs, a.outputs, b.outputs, |b.outputs|, aggregate);
    } else {
      var j :| 0 <= j < |b.outputs| && HoleAt(acc.outputs, a.outputs, b.outputs[j], aggregate);
      HoleFails(acc.outputs, a.outputs, b.outputs, j, aggregate);
    }
  }

  lemma {:induction false} FoldNone(cs: seq<Completion>, j: nat, aggregate: bool)
    requires j <= |cs|
    ensures Fold(None, cs, j, aggregate) == None
  {
    if j == 0 {
    } else {
      FoldNone(cs, j - 1, aggregate);
    }
  }

  /** Cases where it fails: the middle output came without logprobs. */
  lemma {:induction false} NotAssociative(c: Completion, kvParams: int) returns (acc: Output, a: Output, b: Output)
    requires NewLogprobs(c)
    ensures Distinct(a.outputs) && Distinct(b.outputs)
    ensures AddedTwice(acc, a, b, true).Some? && AddedMerged(acc, a, b, true).None?
  {
    var d := c.(logprobs := None);
    acc, a, b := Output(false, kvParams, [c]), Output(false, kvParams, [d]), Output(false, kvParams, [c]);
    FindUnique([c], c.index, 0);
    FindUnique([d], c.index, 0);
    var cd := Merge(c, d, true).value;
    FindUnique([cd], c.index, 0);
    OneStep(Some([c]), d);
    OneStep(Some([d]), c);
    OneStep(Some([cd]), c);
    assert [c][0 := cd] == [cd];
  }

  lemma {:induction false} OneStep(o: Option<seq<Completion>>, n: Completion)
    ensures Fold(o, [n], 1, true) == Step(o, n, true)
  {
    assert Fold(o, [n], 0, true) == o;
  }

  // ---- What each index ends up with -----------------------------------------------------------

  function TextOf(outs: seq<Completion>, x: int): seq<int> {
    if Has(outs, x) then outs[Find(outs, x)].text else []
  }

  function TokensOf(outs: seq<Completion>, x: int): seq<int> {
    if Has(outs, x) then outs[Find(outs, x)].tokens else []
  }

  function LogprobsOf(outs: seq<Completion>, x: int): seq<int> {
    if Has(outs, x) && outs[Find(outs, x)].logprobs.Some? then outs[Find(outs, x)].logprobs.value else []
  }

  /** The parts of the completions with an index, in order. */
  function Texts(cs: seq<Completion>, j: nat, x: int): seq<int>
    requires j <= |cs|
  {
    if j == 0 then [] else Texts(cs, j - 1, x) + if cs[j - 1].index == x then cs[j - 1].text else []
  }

  function Tokens(cs: seq<Completion>, j: nat, x: int): seq<int>
    requires j <= |cs|
  {
    if j == 0 then [] else Tokens(cs, j - 1, x) + if cs[j - 1].index == x then cs[j - 1].tokens else []
  }

  function Logprobs(cs: seq<Completion>, j: nat, x: int): seq<int>
    requires j <= |cs|
  {
    if j == 0 then []
    else Logprobs(cs, j - 1, x) + PartLogprobs(cs[j - 1], x)
  }

  /** Logprobs consistently present, or consistently absent. */
  predicate AllWith(cs: seq<Completion>, with: bool) {
    forall i :: 0 <= i < |cs| ==> cs[i].logprobs.Some? == with
  }

  lemma {:induction false} StepParts(outs: seq<Completion>, n: Completion, x: int)
    requires Step(Some(outs), n, true).Some?
    ensures var outs' := Step(Some(outs), n, true).value;
            && TextOf(outs', x) == TextOf(outs, x) + (if n.index == x then n.text else [])
            && TokensOf(outs', x) == TokensOf(outs, x) + (if n.index == x then n.tokens else [])
  {
    hide Find;
    StepFind(outs, n, true, x);
  }

  lemma {:induction false} StepLogprobs(outs: seq<Completion>, n: Completion, with: bool, x: int)
    requires AllWith(outs, with) && n.logprobs.Some? == with
    ensures var o := Step(Some(outs), n, true);
            && o.Some? && AllWith(o.value, with)
            && LogprobsOf(o.value, x) == LogprobsOf(outs, x) + PartLogprobs(n, x)
  {
    hide Find;
    StepFind(outs, n, true, x);
  }

  function PartLogprobs(n: Completion, x: int): seq<int> {
    if n.index == x && n.logprobs.Some? then n.logprobs.value else []
  }

  /** In aggregate mode, text and tokens of every index are the concatenation of all its deltas. */
  lemma {:induction false} Concatenated(acc: seq<Completion>, cs: seq<Completion>, j: nat, x: int)
    requires j <= |cs| && Fold(Some(acc), cs, j, true).Some?
    ensures var outs := Fold(Some(acc), cs, j, true).value;
            && TextOf(outs, x) == TextOf(acc, x) + Texts(cs, j, x)
            && TokensOf(outs, x) == TokensOf(acc, x) + Tokens(cs, j, x)
  {
    hide Step, Fold, TextOf, TokensOf;
    if j == 0 {
      FoldStart(Some(acc), cs, true);
    } else {
      FoldNext(Some(acc), cs, j - 1, true);
      var before, n := Fold(Some(acc), cs, j - 1, true), cs[j - 1];
      if before.None? {
        Failed(acc, cs, j - 1, j, true);
      }
      Concatenated(acc, cs, j - 1, x);
      StepParts(before.value, n, x);
      Associates(TextOf(acc, x), Texts(cs, j - 1, x), if n.index == x then n.text else []);
      Associates(TokensOf(acc, x), Tokens(cs, j - 1, x), if n.index == x then n.tokens else []);
    }
  }

  lemma {:induction false} Associates(a: seq<int>, b: seq<int>, c: seq<int>)
    ensures a + b + c == a + (b + c)
  {
  }

  /** With logprobs consistently present or absent the merge does not fail. */
  lemma {:induction false} NeverFails(acc: seq<Completion>, cs: seq<Completion>, j: nat, with: bool)
    requires j <= |cs| && AllWith(acc, with) && AllWith(cs, with)
    ensures Fold(Some(acc), cs, j, true).Some? && AllWith(Fold(Some(acc), cs, j, true).value, with)
  {
    hide Step, Fold, LogprobsOf;
    if j == 0 {
      FoldStart(Some(acc), cs, true);
    } else {
      NeverFails(acc, cs, j - 1, with);
      FoldNext(Some(acc), cs, j - 1, true);
      StepLogprobs(Fold(Some(acc), cs, j - 1, true).value, cs[j - 1], with, 0);
    }
  }

  /** Then the logprobs are the concatenation too. */
  lemma {:induction false} ConcatenatedLogprobs(acc: seq<Completion>, cs: seq<Completion>, j: nat, with: bool, x: int)
    requires j <= |cs| && AllWith(acc, with) && AllWith(cs, with)
    ensures Fold(Some(acc), cs, j, true).Some?
    ensures LogprobsOf(Fold(Some(acc), cs, j, true).value, x) == LogprobsOf(acc, x) + Logprobs(cs, j, x)
  {
    hide Step, Fold, LogprobsOf, PartLogprobs;
    NeverFails(acc, cs, j, with);
    if j == 0 {
      FoldStart(Some(acc), cs, true);
    } else {
      ConcatenatedLogprobs(acc, cs, j - 1, with, x);
      NeverFails(acc, cs, j - 1, with);
      FoldNext(Some(acc), cs, j - 1, true);
      StepLogprobs(Fold(Some(acc), cs, j - 1, true).value, cs[j - 1], with, x);
      Associates(LogprobsOf(acc, x), Logprobs(cs, j - 1, x), PartLogprobs(cs[j - 1], x));
    }
  }

  /** The last of the first `j` completions with an index, or -1. */
  function Last(cs: seq<Completion>, j: nat, x: int): int
    requires j <= |cs|
  {
    if j == 0 then -1 else if cs[j - 1].index == x then j - 1 else Last(cs, j - 1, x)
  }

  /** The finish and stop reasons and the cumulative logprob are those of the last delta; without
      aggregation the whole completion is. */
  lemma {:induction false} LatestWins(acc: seq<Completion>, cs: seq<Completion>, j: nat, aggregate: bool, x: int)
    requires j <= |cs| && Fold(Some(acc), cs, j, aggregate).Some? && Last(cs, j, x) >= 0
    ensures var outs, last := Fold(Some(acc), cs, j, aggregate).value, Last(cs, j, x);
            && last < j && Has(outs, x)
            && (var c := outs[Find(outs, x)];
                && c.cumulative == cs[last].cumulative && c.finishReason == cs[last].finishReason
                && c.stopReason == cs[last].stopReason && (!aggregate ==> c == cs[last]))
  {
    var before, n := Fold(Some(acc), cs, j - 1, aggregate), cs[j - 1];
    assert Fold(Some(acc), cs, j, aggregate) == Step(before, n, aggregate);
    StepFind(before.value, n, aggregate, x);
    if n.index != x {
      LatestWins(acc, cs, j - 1, aggregate, x);
    }
  }
}
