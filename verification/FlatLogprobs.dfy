/** Logprobs of a request in flat lists that stand for a list of dictionaries (vllm/logprobs.py).
    Logprobs, ranks and decoded tokens are numbers. */
module FlatLogprobs {
  import opened Blocks
  import opened Options

  datatype Logprob = Logprob(logprob: int, rank: int, decoded: int)

  type Dict = map<int, Logprob>

  /** The six lists. */
  datatype Flat = Flat(starts: seq<int>, ends: seq<int>, tokens: seq<int>, logprobs: seq<int>, ranks: seq<int>,
                       decoded: seq<int>)

  // ---- Reading --------------------------------------------------------------------------------

  predicate SameLength(f: Flat) {
    |f.tokens| == |f.logprobs| == |f.ranks| == |f.decoded| && |f.starts| == |f.ends|
  }

  /** An index into a list of length `n`, where negative ones count from the end. */
  function Wrapped(i: int, n: int): int {
    if i < 0 then n + i else i
  }

  /** The dictionary of the entries from `lo` to `hi`, later ones overriding; none when an index is out
      of range. */
  function Read(f: Flat, lo: int, hi: int): Option<Dict>
    requires SameLength(f)
    decreases hi - lo
  {
    if lo >= hi then Some(map[])
    else
      var d, k := Read(f, lo, hi - 1), Wrapped(hi - 1, |f.tokens|);
      if d.None? || k < 0 || k >= |f.tokens| then None
      else Some(d.value[f.tokens[k] := Logprob(f.logprobs[k], f.ranks[k], f.decoded[k])])
  }

  /** What each position reads as. */
  function View(f: Flat): (v: seq<Option<Dict>>)
    requires SameLength(f)
    ensures |v| == |f.starts|
  {
    seq(|f.starts|, i requires 0 <= i < |f.starts| => Read(f, f.starts[i], f.ends[i]))
  }

  /** Positions take up ranges of the lists, one after the other, perhaps with gaps. */
  predicate Valid(f: Flat) {
    && SameLength(f)
    && (forall i :: 0 <= i < |f.starts| ==> 0 <= f.starts[i] <= f.ends[i] <= |f.tokens|)
    && (forall i, j :: 0 <= i < j < |f.starts| ==> f.ends[i] <= f.starts[j])
  }

  /** Entries can be added at the end without changing what is read before it. */
  lemma {:induction false} ReadStable(f: Flat, g: Flat, lo: int, hi: int)
    requires SameLength(f) && SameLength(g) && 0 <= lo && hi <= |f.tokens|
    requires f.tokens <= g.tokens && f.logprobs <= g.logprobs && f.ranks <= g.ranks && f.decoded <= g.decoded
    ensures Read(g, lo, hi) == Read(f, lo, hi)
    decreases hi - lo
  {
    if lo < hi {
      ReadStable(f, g, lo, hi - 1);
    }
  }

  /** In a valid container every position can be read. */
  lemma {:induction false} ReadSome(f: Flat, lo: int, hi: int)
    requires SameLength(f) && 0 <= lo && hi <= |f.tokens|
    ensures Read(f, lo, hi).Some?
    decreases hi - lo
  {
    if lo < hi {
      ReadSome(f, lo, hi - 1);
    }
  }

  /** What a range reads as: its last entry for every token. */
  lemma {:induction false} ReadIs(f: Flat, lo: nat, hi: nat, t: int)
    requires SameLength(f) && hi <= |f.tokens|
    ensures Read(f, lo, hi).Some?
    ensures var d := Read(f, lo, hi).value;
            && (t in d <==> exists k :: lo <= k < hi && f.tokens[k] == t)
            && (t in d ==>
                  exists k :: lo <= k < hi && f.tokens[k] == t && (forall j :: k < j < hi ==> f.tokens[j] != t) &&
                    d[t] == Logprob(f.logprobs[k], f.ranks[k], f.decoded[k]))
    decreases hi
  {
    ReadSome(f, lo, hi);
    if lo < hi {
      ReadIs(f, lo, hi - 1, t);
      ReadLast(f, lo, hi);
      hide Read;
      if f.tokens[hi - 1] != t && t in Read(f, lo, hi).value {
        var k :| lo <= k < hi - 1 && f.tokens[k] == t && (forall j :: k < j < hi - 1 ==> f.tokens[j] != t) &&
                 Read(f, lo, hi - 1).value[t] == Logprob(f.logprobs[k], f.ranks[k], f.decoded[k]);
        assert forall j :: k < j < hi ==> f.tokens[j] != t;
      }
    }
  }

  lemma {:induction false} ReadLast(f: Flat, lo: nat, hi: nat)
    requires SameLength(f) && lo < hi <= |f.tokens|
    ensures Read(f, lo, hi).Some? && Read(f, lo, hi - 1).Some?
    ensures Read(f, lo, hi).value == Read(f, lo, hi - 1).value
            [f.tokens[hi - 1] := Logprob(f.logprobs[hi - 1], f.ranks[hi - 1], f.decoded[hi - 1])]
  {
    ReadSome(f, lo, hi);
    ReadSome(f, lo, hi - 1);
  }

  // ---- Appending ------------------------------------------------------------------------------

  /** An entry to be appended: a key and its logprob. */
  datatype Entry = Entry(token: int, lp: Logprob)

  /** The dictionary of the first `n` entries, later ones overriding. */
  function DictOf(es: seq<Entry>, n: nat): Dict
    requires n <= |es|
  {
    if n == 0 then map[] else DictOf(es, n - 1)[es[n - 1].token := es[n - 1].lp]
  }

  /** The last entry of every token. */
  lemma {:induction false} DictOfIs(es: seq<Entry>, n: nat, t: int)
    requires n <= |es|
    ensures t in DictOf(es, n) <==> exists k :: 0 <= k < n && es[k].token == t
    ensures t in DictOf(es, n) ==>
              exists k :: 0 <= k < n && es[k].token == t && (forall j :: k < j < n ==> es[j].token != t) &&
                DictOf(es, n)[t] == es[k].lp
  {
    if n > 0 {
      DictOfIs(es, n - 1, t);
      if es[n - 1].token != t && t in DictOf(es, n) {
        var k :| 0 <= k < n - 1 && es[k].token == t && (forall j :: k < j < n - 1 ==> es[j].token != t) &&
                 DictOf(es, n - 1)[t] == es[k].lp;
        assert forall j :: k < j < n ==> es[j].token != t;
      }
    }
  }

  /** The lists with the first `n` entries added, and no position yet. */
  function WithEntries(f: Flat, es: seq<Entry>, n: nat): Flat
    requires n <= |es|
  {
    if n == 0 then f
    else
      var g, e := WithEntries(f, es, n - 1), es[n - 1];
      Flat(g.starts, g.ends, g.tokens + [e.token], g.logprobs + [e.lp.logprob], g.ranks + [e.lp.rank],
           g.decoded + [e.lp.decoded])
  }

  lemma {:induction false} WithEntriesIs(f: Flat, es: seq<Entry>, n: nat)
    requires SameLength(f) && n <= |es|
    ensures var g := WithEntries(f, es, n);
            && SameLength(g) && |g.tokens| == |f.tokens| + n && g.starts == f.starts && g.ends == f.ends
            && f.tokens <= g.tokens && f.logprobs <= g.logprobs && f.ranks <= g.ranks && f.decoded <= g.decoded
            && Read(g, |f.tokens|, |g.tokens|) == Some(DictOf(es, n))
  {
    if n == 0 {
    } else {
      WithEntriesIs(f, es, n - 1);
      var h, g := WithEntries(f, es, n - 1), WithEntries(f, es, n);
      ReadStable(h, g, |f.tokens|, |h.tokens|);
    }
  }

  /** The container with a position for the entries. */
  function WithPosition(f: Flat, es: seq<Entry>): Flat {
    var g := WithEntries(f, es, |es|);
    g.(starts := f.starts + [|f.tokens|], ends := f.ends + [|g.tokens|])
  }

  lemma {:induction false} PositionValid(f: Flat, es: seq<Entry>)
    requires Valid(f)
    ensures Valid(WithPosition(f, es))
  {
    hide WithEntries, DictOf, Read;
    WithEntriesIs(f, es, |es|);
    var g := WithPosition(f, es);
    forall i, j | 0 <= i < j < |g.starts|
      ensures g.ends[i] <= g.starts[j]
    {
    }
  }

  lemma {:induction false} OldPosition(f: Flat, es: seq<Entry>, i: nat)
    requires Valid(f) && i < |f.starts| && SameLength(WithPosition(f, es))
    ensures var g := WithPosition(f, es);
            i < |g.starts| && Read(g, g.starts[i], g.ends[i]) == Read(f, f.starts[i], f.ends[i])
  {
    hide WithEntries, DictOf, Read;
    WithEntriesIs(f, es, |es|);
    ReadStable(f, WithPosition(f, es), f.starts[i], f.ends[i]);
  }

  lemma {:induction false} NewPosition(f: Flat, es: seq<Entry>)
    requires Valid(f) && SameLength(WithPosition(f, es))
    ensures var g, i := WithPosition(f, es), |f.starts|;
            |g.starts| == i + 1 && Read(g, g.starts[i], g.ends[i]) == Some(DictOf(es, |es|))
  {
    hide WithEntries, DictOf, Read;
    WithEntriesIs(f, es, |es|);
    var e, g := WithEntries(f, es, |es|), WithPosition(f, es);
    ReadSame(e, g, |f.tokens|, |e.tokens|);
  }

  /** Appending adds one dictionary to the view and keeps the container valid. */
  lemma {:induction false} PositionAdded(f: Flat, es: seq<Entry>)
    requires Valid(f)
    ensures Valid(WithPosition(f, es)) && View(WithPosition(f, es)) == View(f) + [Some(DictOf(es, |es|))]
  {
    hide WithPosition, DictOf, Read, Valid;
    var g := WithPosition(f, es);
    ValidSameLength(f);
    PositionValid(f, es);
    ValidSameLength(g);
    NewPosition(f, es);
    forall i | 0 <= i < |f.starts|
      ensures View(g)[i] == View(f)[i]
    {
      OldPosition(f, es, i);
    }
  }

  /** Reading depends on the four lists only. */
  lemma {:induction false} ReadSame(f: Flat, g: Flat, lo: int, hi: int)
    requires SameLength(f) && SameLength(g)
    requires f.tokens == g.tokens && f.logprobs == g.logprobs && f.ranks == g.ranks && f.decoded == g.decoded
    ensures Read(g, lo, hi) == Read(f, lo, hi)
    decreases hi - lo
  {
    if lo < hi {
      ReadSame(f, g, lo, hi - 1);
    }
  }

  // ---- Slices ---------------------------------------------------------------------------------

  predicate Positions(f: Flat, ps: seq<int>) {
    ps != [] && forall i :: 0 <= i < |ps| ==> 0 <= ps[i] < |f.starts|
  }

  /** A bound of a slice of a list of length `n`. */
  function Clamped(i: int, n: nat): (r: nat)
    ensures r <= n && (0 <= i <= n ==> r == i)
  {
    if i < 0 then (if n + i < 0 then 0 else n + i) else if i > n then n else i
  }

  /** The slice of a list from `lo` to `hi`. */
  function Cut(xs: seq<int>, lo: int, hi: int): seq<int> {
    var l, h := Clamped(lo, |xs|), Clamped(hi, |xs|);
    if l < h then xs[l..h] else []
  }

  function Moved(xs: seq<int>, ps: seq<int>, base: int): (r: seq<int>)
    requires forall i :: 0 <= i < |ps| ==> 0 <= ps[i] < |xs|
    ensures |r| == |ps| && forall i :: 0 <= i < |ps| ==> r[i] == xs[ps[i]] - base
  {
    seq(|ps|, i requires 0 <= i < |ps| => xs[ps[i]] - base)
  }

  /** The container of the chosen positions, moved to start at zero. */
  function Sliced(f: Flat, ps: seq<int>): Flat
    requires SameLength(f) && Positions(f, ps)
  {
    var lo, hi := f.starts[ps[0]], f.ends[ps[|ps| - 1]];
    Flat(Moved(f.starts, ps, lo), Moved(f.ends, ps, lo),
         Cut(f.tokens, lo, hi), Cut(f.logprobs, lo, hi), Cut(f.ranks, lo, hi), Cut(f.decoded, lo, hi))
  }

  predicate Increasing(ps: seq<int>) {
    forall i, j :: 0 <= i < j < |ps| ==> ps[i] < ps[j]
  }

  predicate Decreasing(ps: seq<int>) {
    forall i, j :: 0 <= i < j < |ps| ==> ps[i] > ps[j]
  }

  lemma {:induction false} ReadMoved(f: Flat, g: Flat, base: int, lo: int, hi: int)
    requires SameLength(f) && SameLength(g) && 0 <= base <= lo && hi <= base + |g.tokens| <= |f.tokens|
    requires g.tokens == f.tokens[base..base + |g.tokens|] && g.logprobs == f.logprobs[base..base + |g.tokens|]
    requires g.ranks == f.ranks[base..base + |g.tokens|] && g.decoded == f.decoded[base..base + |g.tokens|]
    ensures Read(g, lo - base, hi - base) == Read(f, lo, hi)
    decreases hi - lo
  {
    if lo < hi {
      ReadMoved(f, g, base, lo, hi - 1);
    }
  }

  /** The bounds of an increasing choice hold every position chosen. */
  lemma {:induction false} InBounds(f: Flat, ps: seq<int>, i: nat)
    requires Valid(f) && Positions(f, ps) && Increasing(ps) && i < |ps|
    ensures f.starts[ps[0]] <= f.starts[ps[i]] <= f.ends[ps[i]] <= f.ends[ps[|ps| - 1]]
  {
    var first, p, last := ps[0], ps[i], ps[|ps| - 1];
    assert first < p ==> f.ends[first] <= f.starts[p];
    assert p < last ==> f.ends[p] <= f.starts[last];
  }

  lemma {:induction false} SlicedLists(f: Flat, ps: seq<int>)
    requires Valid(f) && Positions(f, ps) && Increasing(ps)
    ensures var g, base := Sliced(f, ps), f.starts[ps[0]];
            && SameLength(g) && |g.tokens| == f.ends[ps[|ps| - 1]] - base
            && 0 <= base && base + |g.tokens| <= |f.tokens|
            && g.tokens == f.tokens[base..base + |g.tokens|] && g.logprobs == f.logprobs[base..base + |g.tokens|]
            && g.ranks == f.ranks[base..base + |g.tokens|] && g.decoded == f.decoded[base..base + |g.tokens|]
  {
    InBounds(f, ps, 0);
  }

  lemma {:induction false} SlicedValid(f: Flat, ps: seq<int>)
    requires Valid(f) && Positions(f, ps) && Increasing(ps)
    ensures Valid(Sliced(f, ps))
  {
    hide Cut;
    SlicedLists(f, ps);
    var g := Sliced(f, ps);
    forall i | 0 <= i < |g.starts|
      ensures 0 <= g.starts[i] <= g.ends[i] <= |g.tokens|
    {
      InBounds(f, ps, i);
    }
    forall i, j | 0 <= i < j < |g.starts|
      ensures g.ends[i] <= g.starts[j]
    {
      assert f.ends[ps[i]] <= f.starts[ps[j]];
    }
  }

  /** A slice with positive step is the slice of the view, and the result can be appended to. */
  lemma {:induction false} SliceIsSlice(f: Flat, ps: seq<int>, i: nat)
    requires Valid(f) && Positions(f, ps) && Increasing(ps) && i < |ps|
    ensures Valid(Sliced(f, ps)) && |View(Sliced(f, ps))| == |ps| && View(Sliced(f, ps))[i] == View(f)[ps[i]]
  {
    hide Read, Increasing, Cut;
    SlicedLists(f, ps);
    SlicedValid(f, ps);
    InBounds(f, ps, i);
    var g, base := Sliced(f, ps), f.starts[ps[0]];
    assert g.starts[i] == f.starts[ps[i]] - base && g.ends[i] == f.ends[ps[i]] - base;
    ReadMoved(f, g, base, f.starts[ps[i]], f.ends[ps[i]]);
  }

  /** Nothing can be read from empty lists. */
  lemma {:induction false} ReadNothing(g: Flat, lo: int, hi: int)
    requires SameLength(g) && g.tokens == []
    ensures Read(g, lo, hi) == if lo < hi then None else Some(map[])
    decreases hi - lo
  {
  }

  /** A slice that runs backwards over several positions has empty lists, so it is the slice of the view
      exactly when all its positions are empty. */
  lemma {:induction false} BackwardSlice(f: Flat, ps: seq<int>)
    requires Valid(f) && Positions(f, ps) && Decreasing(ps) && |ps| >= 2
    ensures var g := Sliced(f, ps);
            && SameLength(g) && |View(g)| == |ps| && g.tokens == []
            && ((forall i :: 0 <= i < |ps| ==> View(g)[i] == View(f)[ps[i]]) <==>
                (forall i :: 0 <= i < |ps| ==> f.starts[ps[i]] == f.ends[ps[i]]))
  {
    var g, first, last := Sliced(f, ps), ps[0], ps[|ps| - 1];
    assert first > last && f.ends[last] <= f.starts[first];
    assert SameLength(g) && g.tokens == [];
    forall i | 0 <= i < |ps|
      ensures View(g)[i] == View(f)[ps[i]] <==> f.starts[ps[i]] == f.ends[ps[i]]
    {
      ReadNothing(g, g.starts[i], g.ends[i]);
      ReadSome(f, f.starts[ps[i]], f.ends[ps[i]]);
    }
  }

  predicate AllEmpty(f: Flat, ps: seq<int>)
    requires Positions(f, ps) && |f.ends| == |f.starts|
  {
    forall i :: 0 <= i < |ps| ==> f.starts[ps[i]] == f.ends[ps[i]]
  }

  /** `g` holds the dictionaries of `f` at the chosen positions. */
  predicate HasSlice(f: Flat, ps: seq<int>, g: Flat)
    requires SameLength(f) && Positions(f, ps)
  {
    && SameLength(g) && |View(g)| == |ps|
    && forall i :: 0 <= i < |ps| ==> View(g)[i] == View(f)[ps[i]]
  }

  /** The slice holds what was chosen if and only if it runs forwards, has one position or has only empty ones. */
  lemma {:induction false} HasSliceIff(f: Flat, ps: seq<int>)
    requires Valid(f) && Positions(f, ps) && (Increasing(ps) || Decreasing(ps))
    ensures HasSlice(f, ps, Sliced(f, ps)) <==> Increasing(ps) || |ps| == 1 || AllEmpty(f, ps)
    ensures Increasing(ps) || |ps| == 1 ==> Valid(Sliced(f, ps))
  {
    hide Sliced, View, Valid;
    ValidSameLength(f);
    if Increasing(ps) || |ps| == 1 {
      assert Increasing(ps);
      SlicedValid(f, ps);
      ValidSameLength(Sliced(f, ps));
      forall i | 0 <= i < |ps|
        ensures |View(Sliced(f, ps))| == |ps| && View(Sliced(f, ps))[i] == View(f)[ps[i]]
      {
        SliceIsSlice(f, ps, i);
      }
      SliceIsSlice(f, ps, 0);
    } else {
      BackwardSlice(f, ps);
    }
  }

  lemma {:induction false} ValidSameLength(f: Flat)
    requires Valid(f)
    ensures SameLength(f)
  {
  }

  lemma {:induction false} NotBoth(ps: seq<int>)
    ensures Increasing(ps) && Decreasing(ps) ==> |ps| <= 1
    ensures |ps| <= 1 ==> Increasing(ps)
  {
    assert |ps| >= 2 && Increasing(ps) ==> ps[0] < ps[1];
  }

  /** `range(lo, hi, step)` */
  function Range(lo: int, hi: int, step: int): seq<int>
    requires step != 0
    decreases if step > 0 then hi - lo else lo - hi
  {
    if (step > 0 && lo < hi) || (step < 0 && lo > hi) then [lo] + Range(lo + step, hi, step) else []
  }

  /** The `i`-th number of a range. */
  lemma {:induction false} RangeAt(lo: int, hi: int, step: int, i: nat)
    requires step != 0 && i < |Range(lo, hi, step)|
    ensures Range(lo, hi, step)[i] == lo + i * step
    ensures if step > 0 then lo + i * step < hi else lo + i * step > hi
    decreases i
  {
    if i == 0 {
    } else {
      RangeAt(lo + step, hi, step, i - 1);
      assert lo + step + (i - 1) * step == lo + i * step;
    }
  }

  lemma {:induction false} RangeIs(lo: int, hi: int, step: int)
    requires step != 0
    ensures step > 0 ==> Increasing(Range(lo, hi, step))
    ensures step < 0 ==> Decreasing(Range(lo, hi, step))
    ensures forall i :: 0 <= i < |Range(lo, hi, step)| ==>
              if step > 0 then lo <= Range(lo, hi, step)[i] < hi else hi < Range(lo, hi, step)[i] <= lo
  {
    var r := Range(lo, hi, step);
    hide Range;
    forall i, j | 0 <= i < j < |r|
      ensures if step > 0 then r[i] < r[j] else r[i] > r[j]
    {
      RangeAt(lo, hi, step, i);
      RangeAt(lo, hi, step, j);
      Steps(i, j, step);
    }
    forall i | 0 <= i < |r|
      ensures if step > 0 then lo <= r[i] < hi else hi < r[i] <= lo
    {
      RangeAt(lo, hi, step, i);
      Steps(0, i, step);
    }
  }

  lemma {:induction false} Steps(i: nat, j: nat, step: int)
    requires i <= j && step != 0
    ensures step > 0 ==> i * step <= j * step && (i < j ==> i * step < j * step)
    ensures step < 0 ==> i * step >= j * step && (i < j ==> i * step > j * step)
  {
    assert j * step == i * step + (j - i) * step;
  }

  /** The positions of a slice of `n` positions, with the bounds that Python fills in. */
  function SlicePositions(lo: Option<int>, hi: Option<int>, step: int, n: nat): seq<int>
    requires step != 0
  {
    if step > 0
    then Range(if lo.None? then 0 else Clamped(lo.value, n), if hi.None? then n else Clamped(hi.value, n), step)
    else Range(if lo.None? then n - 1 else ClampedDown(lo.value, n),
               if hi.None? then -1 else ClampedDown(hi.value, n), step)
  }

  function ClampedDown(i: int, n: nat): (r: int)
    ensures -1 <= r <= n - 1
  {
    if i < 0 then (if n + i < 0 then -1 else n + i) else if i >= n then n - 1 else i
  }

  /** A distance is whole steps if it is none, or if it is after one step less. */
  lemma {:induction false} ModStep(x: nat, step: nat)
    requires step > 0
    ensures x >= step ==> (x - step) % step == x % step
    ensures x < step ==> (x % step == 0 <==> x == 0)
  {
    var q, r := x / step, x % step;
    assert x == q * step + r;
    if x >= step {
      assert x - step == (q - 1) * step + r;
      DivUnique(x - step, step, q - 1, r);
    } else {
      DivUnique(x, step, 0, x);
    }
  }

  /** The numbers of a range are those between its bounds that are whole steps from its start. */
  lemma {:induction false} InRangeIff(lo: int, hi: int, step: int, p: int)
    requires step != 0
    ensures p in Range(lo, hi, step) <==>
            if step > 0 then lo <= p < hi && (p - lo) % step == 0 else hi < p <= lo && (lo - p) % -step == 0
    decreases if step > 0 then hi - lo else lo - hi
  {
    if (step > 0 && lo < hi) || (step < 0 && lo > hi) {
      InRangeIff(lo + step, hi, step, p);
      assert Range(lo, hi, step) == [lo] + Range(lo + step, hi, step);
      hide Range;
      if step > 0 && p >= lo {
        ModStep(p - lo, step);
      } else if step < 0 && p <= lo {
        ModStep(lo - p, -step);
      }
    }
  }

  /** Where an index that may count from the end of `n` positions points, in or out of range. */
  function FromEnd(i: int, n: nat): int {
    if i < 0 then i + n else i
  }

  /** Position `p` of `n` is chosen by a slice: it is between the bounds that are given, and whole steps from the first
      position there is, or from the last one if the step is negative. */
  predicate Chosen(lo: Option<int>, hi: Option<int>, step: int, n: nat, p: int)
    requires step != 0
  {
    && 0 <= p < n
    && if step > 0 then
         && (lo.Some? ==> FromEnd(lo.value, n) <= p) && (hi.Some? ==> p < FromEnd(hi.value, n))
         && (p - (if lo.Some? && FromEnd(lo.value, n) > 0 then FromEnd(lo.value, n) else 0)) % step == 0
       else
         && (lo.Some? ==> p <= FromEnd(lo.value, n)) && (hi.Some? ==> FromEnd(hi.value, n) < p)
         && ((if lo.Some? && FromEnd(lo.value, n) < n - 1 then FromEnd(lo.value, n) else n - 1) - p) % -step == 0
  }

  /** Those positions, in order. */
  lemma {:induction false} SlicePositionsIff(lo: Option<int>, hi: Option<int>, step: int, n: nat, p: int)
    requires step != 0
    ensures p in SlicePositions(lo, hi, step, n) <==> Chosen(lo, hi, step, n, p)
    ensures var ps := SlicePositions(lo, hi, step, n);
            forall i, j :: 0 <= i < j < |ps| ==> if step > 0 then ps[i] < ps[j] else ps[i] > ps[j]
  {
    if step > 0 {
      var l, h := if lo.None? then 0 else Clamped(lo.value, n), if hi.None? then n else Clamped(hi.value, n);
      RangeIs(l, h, step);
      InRangeIff(l, h, step, p);
      hide Range;
    } else {
      var l := if lo.None? then n - 1 else ClampedDown(lo.value, n);
      var h := if hi.None? then -1 else ClampedDown(hi.value, n);
      RangeIs(l, h, step);
      InRangeIff(l, h, step, p);
      hide Range;
    }
  }

  /** The slice from `-k` on chooses the last `k` positions. */
  lemma {:induction false} LastPositions(n: nat, k: int, p: int)
    requires 0 < k <= n
    ensures p in SlicePositions(Some(-k), None, 1, n) <==> n - k <= p < n
  {
    hide SlicePositions;
    SlicePositionsIff(Some(-k), None, 1, n, p);
  }

  lemma {:induction false} SlicePositionsAre(f: Flat, lo: Option<int>, hi: Option<int>, step: int)
    requires step != 0
    ensures var ps := SlicePositions(lo, hi, step, |f.starts|);
            (ps != [] ==> Positions(f, ps)) && (step > 0 ==> Increasing(ps)) && (step < 0 ==> Decreasing(ps))
  {
    var n := |f.starts|;
    var ps := SlicePositions(lo, hi, step, n);
    if step > 0 {
      RangeIs(if lo.None? then 0 else Clamped(lo.value, n), if hi.None? then n else Clamped(hi.value, n), step);
    } else {
      RangeIs(if lo.None? then n - 1 else ClampedDown(lo.value, n),
              if hi.None? then -1 else ClampedDown(hi.value, n), step);
    }
  }

  /** Every slice with positive step that is not empty has the sliced view, and can be appended to. */
  lemma {:induction false} PositiveSlice(f: Flat, lo: Option<int>, hi: Option<int>, step: int, i: nat)
    requires Valid(f) && step > 0 && i < |SlicePositions(lo, hi, step, |f.starts|)|
    ensures var ps := SlicePositions(lo, hi, step, |f.starts|);
            && Positions(f, ps) && Valid(Sliced(f, ps)) && |View(Sliced(f, ps))| == |ps|
            && View(Sliced(f, ps))[i] == View(f)[ps[i]]
  {
    SlicePositionsAre(f, lo, hi, step);
    SliceIsSlice(f, SlicePositions(lo, hi, step, |f.starts|), i);
  }

  // ---- The container --------------------------------------------------------------------------

  /** Entries zipped from four lists, as far as the shortest goes. */
  function Zipped(tokens: seq<int>, logprobs: seq<int>, ranks: seq<int>, decoded: seq<int>): (es: seq<Entry>)
    ensures |es| == Shortest(tokens, logprobs, ranks, decoded)
    ensures forall i :: 0 <= i < |es| ==> es[i] == Entry(tokens[i], Logprob(logprobs[i], ranks[i], decoded[i]))
  {
    seq(Shortest(tokens, logprobs, ranks, decoded), i requires 0 <= i < Shortest(tokens, logprobs, ranks, decoded) =>
      Entry(tokens[i], Logprob(logprobs[i], ranks[i], decoded[i])))
  }

  function Shortest(a: seq<int>, b: seq<int>, c: seq<int>, d: seq<int>): (n: nat)
    ensures n <= |a| && n <= |b| && n <= |c| && n <= |d| && (n == |a| || n == |b| || n == |c| || n == |d|)
  {
    var m, k := if |a| < |b| then |a| else |b|, if |c| < |d| then |c| else |d|;
    if m < k then m else k
  }

  /** The rank of the sampled token, then the ranks of the top ones. */
  function Ranks(rank: int, num: int): seq<int> {
    [rank] + seq(if num < 0 then 0 else num, i => i + 1)
  }

  /** The entries for the next position. */
  function NextEntries(tokens: seq<int>, logprobs: seq<int>, decoded: seq<int>, rank: int, num: int): seq<Entry> {
    Zipped(tokens, logprobs, Ranks(rank, if num == -1 then |logprobs| else num), decoded)
  }

  /** The entries for the next position: the sampled token with its rank, then the top tokens with theirs from 1 on, as
      far as all lists go and as many as are asked for. */
  lemma {:induction false} NextEntriesAre(tokens: seq<int>, logprobs: seq<int>, decoded: seq<int>, rank: int, num: int)
    ensures var es := NextEntries(tokens, logprobs, decoded, rank, num);
            && |es| <= |tokens| && |es| <= |logprobs| && |es| <= |decoded|
            && (num != -1 ==> |es| <= 1 + if num < 0 then 0 else num)
            && (|| |es| == |tokens| || |es| == |logprobs| || |es| == |decoded|
                || (num != -1 && |es| == 1 + if num < 0 then 0 else num))
            && (forall i :: 0 <= i < |es| ==>
                  es[i] == Entry(tokens[i], Logprob(logprobs[i], if i == 0 then rank else i, decoded[i])))
  {
  }

  class FlatLogprobs {
    var starts: seq<int>
    var ends: seq<int>
    var tokens: seq<int>
    var logprobs: seq<int>
    var ranks: seq<int>
    var decoded: seq<int>

    function Value(): Flat
      reads this
    {
      Flat(starts, ends, tokens, logprobs, ranks, decoded)
    }

    constructor (f: Flat)
      ensures Value() == f
    {
      starts, ends, tokens, logprobs, ranks, decoded := f.starts, f.ends, f.tokens, f.logprobs, f.ranks, f.decoded;
    }

    /** `append`.  The entries are the items of the dictionary; `None` and an empty dictionary have none. */
    method Append(es: seq<Entry>)
      requires Valid(Value())
      modifies this
      ensures Valid(Value()) && View(Value()) == old(View(Value())) + [Some(DictOf(es, |es|))]
    {
      hide View, Valid, DictOf, Read;
      ghost var f := Value();
      PositionAdded(f, es);
      ValidSameLength(f);
      WithEntriesIs(f, es, |es|);
      starts := starts + [|logprobs|];
      for i := 0 to |es|
        invariant Flat(f.starts, f.ends, tokens, logprobs, ranks, decoded) == WithEntries(f, es, i)
        invariant starts == f.starts + [|f.tokens|] && ends == f.ends
      {
        tokens := tokens + [es[i].token];
        logprobs := logprobs + [es[i].lp.logprob];
        ranks := ranks + [es[i].lp.rank];
        decoded := decoded + [es[i].lp.decoded];
      }
      ends := ends + [|logprobs|];
      assert Value() == WithPosition(f, es);
    }

    /** `append_fast` */
    method AppendFast(tokenIds: seq<int>, values: seq<int>, rankings: seq<int>, decodedTokens: seq<int>)
      requires Valid(Value())
      modifies this
      ensures var es := Zipped(tokenIds, values, rankings, decodedTokens);
              Valid(Value()) && View(Value()) == old(View(Value())) + [Some(DictOf(es, |es|))]
    {
      hide Zipped, View, Valid, DictOf, Read;
      ghost var f, es := Value(), Zipped(tokenIds, values, rankings, decodedTokens);
      PositionAdded(f, es);
      ValidSameLength(f);
      WithEntriesIs(f, es, |es|);
      starts := starts + [|logprobs|];
      for i := 0 to Shortest(tokenIds, values, rankings, decodedTokens)
        invariant Flat(f.starts, f.ends, tokens, logprobs, ranks, decoded) == WithEntries(f, es, i)
        invariant starts == f.starts + [|f.tokens|] && ends == f.ends
      {
        tokens := tokens + [tokenIds[i]];
        logprobs := logprobs + [values[i]];
        ranks := ranks + [rankings[i]];
        decoded := decoded + [decodedTokens[i]];
      }
      ends := ends + [|logprobs|];
      assert Value() == WithPosition(f, es);
    }

    /** `extend` */
    method Extend(positions: seq<seq<Entry>>)
      requires Valid(Value())
      modifies this
      ensures Valid(Value()) && View(Value()) == old(View(Value())) + Dicts(positions, |positions|)
      ensures |View(Value())| == |old(View(Value()))| + |positions|
      ensures forall i :: 0 <= i < |positions| ==>
                View(Value())[|old(View(Value()))| + i] == Some(DictOf(positions[i], |positions[i]|))
    {
      ghost var before := View(Value());
      DictsAre(positions, |positions|);
      for i := 0 to |positions|
        invariant Valid(Value()) && View(Value()) == before + Dicts(positions, i)
      {
        hide *;
        ExtendStep(before, positions, i);
        Append(positions[i]);
      }
    }

    /** `__getitem__` with a position: none when it is out of range. */
    method GetItem(position: int) returns (r: Option<Dict>)
      requires SameLength(Value())
      ensures r == if 0 <= position < |starts| then View(Value())[position]
                   else if -|starts| <= position < 0 then View(Value())[|starts| + position]
                   else None
    {
      var p := Wrapped(position, |starts|);
      if p < 0 || p >= |starts| {
        return None;
      }
      var d: Dict := map[];
      var i := starts[p];
      while i < ends[p]
        invariant starts[p] <= i && (i <= ends[p] || i == starts[p])
        invariant Read(Value(), starts[p], i) == Some(d)
      {
        var k := Wrapped(i, |tokens|);
        if k < 0 || k >= |tokens| {
          Unreadable(Value(), starts[p], i + 1, ends[p]);
          return None;
        }
        d := d[tokens[k] := Logprob(logprobs[k], ranks[k], decoded[k])];
        i := i + 1;
      }
      r := Some(d);
    }

    /** `__getitem__` with a slice: none when it is empty or the step is zero.  Otherwise it holds what the view has
        at the chosen positions exactly when it runs forwards, has one position or has only empty ones, and in the
        first two cases it can be appended to. */
    method GetSlice(lo: Option<int>, hi: Option<int>, step: int) returns (r: Option<Flat>)
      requires SameLength(Value())
      ensures var ps := if step == 0 then [] else SlicePositions(lo, hi, step, |starts|);
              if ps == [] then r == None else Positions(Value(), ps) && r == Some(Sliced(Value(), ps))
      ensures r.Some? && Valid(Value()) ==>
                var ps := SlicePositions(lo, hi, step, |starts|);
                && (HasSlice(Value(), ps, r.value) <==> step > 0 || |ps| == 1 || AllEmpty(Value(), ps))
                && (step > 0 || |ps| == 1 ==> Valid(r.value))
    {
      hide Sliced, HasSlice, AllEmpty, Valid, Increasing, Decreasing, SlicePositions;
      if step == 0 {
        return None;
      }
      var ps := SlicePositions(lo, hi, step, |starts|);
      if ps == [] {
        return None;
      }
      SlicePositionsAre(Value(), lo, hi, step);
      r := Some(Sliced(Value(), ps));
      if Valid(Value()) {
        HasSliceIff(Value(), ps);
        NotBoth(ps);
      }
    }
  }

  function Dicts(positions: seq<seq<Entry>>, n: nat): seq<Option<Dict>>
    requires n <= |positions|
  {
    if n == 0 then [] else Dicts(positions, n - 1) + [Some(DictOf(positions[n - 1], |positions[n - 1]|))]
  }

  lemma {:induction false} DictsAre(positions: seq<seq<Entry>>, n: nat)
    requires n <= |positions|
    ensures |Dicts(positions, n)| == n
    ensures forall i :: 0 <= i < n ==> Dicts(positions, n)[i] == Some(DictOf(positions[i], |positions[i]|))
  {
    hide DictOf;
    if n > 0 {
      DictsAre(positions, n - 1);
    }
  }

  lemma {:induction false} ExtendStep(before: seq<Option<Dict>>, positions: seq<seq<Entry>>, i: nat)
    requires i < |positions|
    ensures before + Dicts(positions, i) + [Some(DictOf(positions[i], |positions[i]|))] ==
              before + Dicts(positions, i + 1)
  {
  }

  lemma {:induction false} Unreadable(f: Flat, lo: int, mid: int, hi: int)
    requires SameLength(f) && mid <= hi && Read(f, lo, mid) == None
    ensures Read(f, lo, hi) == None
    decreases hi - mid
  {
    if mid < hi {
      Unreadable(f, lo, mid, hi - 1);
    }
  }

  /** `append_logprobs_for_next_position` on the flat container. */
  method AppendNextFlat(flat: FlatLogprobs, tokens: seq<int>, logprobs: seq<int>, decoded: seq<int>, rank: int,
                        num: int)
    requires Valid(flat.Value())
    modifies flat
    ensures var es := NextEntries(tokens, logprobs, decoded, rank, num);
            Valid(flat.Value()) && View(flat.Value()) == old(View(flat.Value())) + [Some(DictOf(es, |es|))]
  {
    var n := if num == -1 then |logprobs| else num;
    flat.AppendFast(tokens, logprobs, Ranks(rank, n), decoded);
  }

  /** The same on a list of dictionaries: the dictionary is built entry by entry, later ones overriding. */
  method AppendNextList(list: seq<Option<Dict>>, tokens: seq<int>, logprobs: seq<int>, decoded: seq<int>, rank: int,
                        num: int)
    returns (r: seq<Option<Dict>>)
    ensures var es := NextEntries(tokens, logprobs, decoded, rank, num);
            r == list + [Some(DictOf(es, |es|))]
  {
    var n := if num == -1 then |logprobs| else num;
    var ranks := Ranks(rank, n);
    ghost var es := NextEntries(tokens, logprobs, decoded, rank, num);
    var d: Dict := map[];
    for i := 0 to Shortest(tokens, logprobs, ranks, decoded)
      invariant d == DictOf(es, i)
    {
      d := d[tokens[i] := Logprob(logprobs[i], ranks[i], decoded[i])];
    }
    r := list + [Some(d)];
  }
}
