/** The reader of a ninja log, which keeps only the last build unless told to show everything
    (tools/report_build_time_ninja.py).  Times are the whole milliseconds of the log. */
module NinjaLog {

  /** Names and command hashes are only ever compared, so numbers stand for them. */
  type Text = int

  datatype Record = Record(start: int, end: int, name: Text, hash: Text)

  /** A line of the log: without five fields, with five fields but times that are not numbers, or
      well formed. */
  datatype Line = Corrupt | NotNumbers | Fields(record: Record)

  datatype Target = Target(start: int, end: int, names: seq<Text>)

  datatype Result = Targets(targets: seq<Target>) | UnrecognizedVersion | ValueError

  /** The first line: the version that the reader knows, or another. */
  datatype Header = Version5 | Other

  /** The records of the well-formed lines among the first `n`. */
  function Records(lines: seq<Line>, n: nat): seq<Record>
    requires n <= |lines|
  {
    if n == 0 then []
    else
      var rs := Records(lines, n - 1);
      if lines[n - 1].Fields? then rs + [lines[n - 1].record] else rs
  }

  /** No line among the first `n` has times that are not numbers. */
  predicate Readable(lines: seq<Line>, n: nat)
    requires n <= |lines|
  {
    forall j :: 0 <= j < n ==> !lines[j].NotNumbers?
  }

  // ---- Grouping by command hash ---------------------------------------------------------------

  /** The index of the first record with a hash, or the length. */
  function First(rs: seq<Record>, h: Text): (k: nat)
    ensures k <= |rs|
  {
    if rs == [] then 0
    else
      var n := |rs| - 1;
      var k := First(rs[..n], h);
      if k < n || rs[n].hash == h then k else n + 1
  }

  lemma {:induction false} FirstIs(rs: seq<Record>, h: Text)
    ensures var k := First(rs, h);
            (k < |rs| ==> rs[k].hash == h) && forall i :: 0 <= i < k ==> rs[i].hash != h
  {
    if rs == [] {
    } else {
      var n := |rs| - 1;
      FirstIs(rs[..n], h);
      assert forall i :: 0 <= i < n ==> rs[..n][i] == rs[i];
    }
  }

  /** The names of the records with a hash, in order. */
  function NamesOf(rs: seq<Record>, h: Text): seq<Text> {
    if rs == [] then []
    else
      var n := |rs| - 1;
      NamesOf(rs[..n], h) + if rs[n].hash == h then [rs[n].name] else []
  }

  /** The hashes in the order in which they first occur. */
  function Hashes(rs: seq<Record>): seq<Text> {
    if rs == [] then []
    else
      var n := |rs| - 1;
      var hs := Hashes(rs[..n]);
      if First(rs[..n], rs[n].hash) < n then hs else hs + [rs[n].hash]
  }

  lemma {:induction false} HashesAre(rs: seq<Record>, h: Text)
    ensures h in Hashes(rs) <==> First(rs, h) < |rs|
  {
    if rs == [] {
    } else {
      HashesAre(rs[..|rs| - 1], h);
    }
  }

  /** The target of a hash: the times of its first record and all its names. */
  function TargetOf(rs: seq<Record>, h: Text): Target
    requires First(rs, h) < |rs|
  {
    Target(rs[First(rs, h)].start, rs[First(rs, h)].end, NamesOf(rs, h))
  }

  function Grouping(rs: seq<Record>): seq<Target> {
    var hs := Hashes(rs);
    seq(|hs|, i requires 0 <= i < |hs| => HashesAre(rs, hs[i]); TargetOf(rs, hs[i]))
  }

  /** Hashes do not repeat, so every hash has exactly one target. */
  lemma {:induction false} HashesDistinct(rs: seq<Record>, i: nat, j: nat)
    requires i < j < |Hashes(rs)|
    ensures Hashes(rs)[i] != Hashes(rs)[j]
  {
    if rs == [] {
    } else {
      var n := |rs| - 1;
      var hs := Hashes(rs[..n]);
      if j < |hs| {
        HashesDistinct(rs[..n], i, j);
      } else {
        assert hs[i] in hs;
        HashesAre(rs[..n], hs[i]);
      }
    }
  }

  // ---- The last build -------------------------------------------------------------------------

  predicate SameTimes(r: Record, s: Record) {
    r.start == s.start && r.end == s.end
  }

  /** Record `k` shows that a new build began: it ends before its predecessor, or its command ran at
      other times since `from`. */
  predicate NewBuild(rs: seq<Record>, from: nat, k: nat)
    requires from <= k < |rs|
  {
    || (k > 0 && rs[k].end < rs[k - 1].end)
    || RanOtherwise(rs, from, k, rs[k])
  }

  predicate RanOtherwise(rs: seq<Record>, from: nat, k: nat, r: Record)
    requires from <= k <= |rs|
  {
    exists j :: from <= j < k && rs[j].hash == r.hash && !SameTimes(rs[j], r)
  }

  /** Where the build of the last of the first `k` records began. */
  function BuildStart(rs: seq<Record>, k: nat): (s: nat)
    requires k <= |rs|
    ensures s <= k && (k > 0 ==> s < k)
  {
    if k == 0 then 0
    else
      var s := BuildStart(rs, k - 1);
      if NewBuild(rs, s, k - 1) then k - 1 else s
  }

  /** Within a build, ends never decrease and a command has the same times everywhere. */
  lemma {:induction false} BuildConsistent(rs: seq<Record>, k: nat, i: nat, j: nat)
    requires k <= |rs| && BuildStart(rs, k) <= i < j < k
    ensures rs[i].end <= rs[j].end
    ensures rs[i].hash == rs[j].hash ==> SameTimes(rs[i], rs[j])
  {
    var s := BuildStart(rs, k - 1);
    assert !NewBuild(rs, s, k - 1);
    if j < k - 1 {
      BuildConsistent(rs, k - 1, i, j);
    } else if i < j - 1 {
      BuildConsistent(rs, k - 1, i, j - 1);
    }
  }

  /** The build starts at the first record or where the rule above asks for a new build. */
  lemma {:induction false} BuildStartReason(rs: seq<Record>, k: nat)
    requires k <= |rs| && BuildStart(rs, k) > 0
    ensures var s := BuildStart(rs, k);
            || rs[s].end < rs[s - 1].end
            || exists j :: BuildStart(rs, s) <= j < s && rs[j].hash == rs[s].hash &&
                 (rs[j].start != rs[s].start || rs[j].end != rs[s].end)
  {
    var s := BuildStart(rs, k - 1);
    if !NewBuild(rs, s, k - 1) {
      BuildStartReason(rs, k - 1);
    }
  }

  // ---- The reader -----------------------------------------------------------------------------

  /** A record added at the end. */
  lemma {:induction false} Snoc(rs: seq<Record>, r: Record, h: Text)
    ensures First(rs + [r], h) == if First(rs, h) < |rs| || r.hash == h then First(rs, h) else |rs| + 1
    ensures NamesOf(rs + [r], h) == NamesOf(rs, h) + if r.hash == h then [r.name] else []
    ensures Hashes(rs + [r]) == Hashes(rs) + if First(rs, r.hash) < |rs| then [] else [r.hash]
  {
    assert (rs + [r])[..|rs|] == rs;
  }

  /** The dictionary, with its insertion order, groups some records. */
  ghost predicate Holds(dict: map<Text, Target>, order: seq<Text>, rs: seq<Record>) {
    && order == Hashes(rs)
    && (forall h :: h in dict <==> First(rs, h) < |rs|)
    && (forall h :: h in dict ==> dict[h] == TargetOf(rs, h))
  }

  lemma {:induction false} NoNames(rs: seq<Record>, h: Text)
    requires First(rs, h) == |rs|
    ensures NamesOf(rs, h) == []
  {
    if rs == [] {
    } else {
      var n := |rs| - 1;
      NoNames(rs[..n], h);
    }
  }

  /** Adding a record to the dictionary. */
  lemma {:induction false} HoldsNext(dict: map<Text, Target>, order: seq<Text>, rs: seq<Record>, r: Record)
    requires Holds(dict, order, rs)
    ensures var t := if r.hash in dict then dict[r.hash] else Target(r.start, r.end, []);
            Holds(dict[r.hash := t.(names := t.names + [r.name])], if r.hash in dict then order else order + [r.hash],
                  rs + [r])
  {
    hide First, NamesOf, Hashes;
    forall h
      ensures First(rs + [r], h) == if First(rs, h) < |rs| || r.hash == h then First(rs, h) else |rs| + 1
      ensures NamesOf(rs + [r], h) == NamesOf(rs, h) + if r.hash == h then [r.name] else []
    {
      Snoc(rs, r, h);
    }
    Snoc(rs, r, r.hash);
    if r.hash !in dict {
      NoNames(rs, r.hash);
    }
  }

  /** Where builds start does not depend on later records. */
  lemma {:induction false} BuildStartPrefix(rs: seq<Record>, all: seq<Record>, k: nat)
    requires rs <= all && k <= |rs|
    ensures BuildStart(all, k) == BuildStart(rs, k)
  {
    if k == 0 {
    } else {
      BuildStartPrefix(rs, all, k - 1);
      assert all[k - 1] == rs[k - 1];
      assert forall j :: 0 <= j < k ==> all[j] == rs[j];
    }
  }

  /** It is enough to compare a record with the first one of its command in this build. */
  lemma {:induction false} NewBuildIff(rs: seq<Record>, r: Record)
    ensures var s, k := BuildStart(rs, |rs|), |rs|;
            var b := rs[s..];
            var f := First(b, r.hash);
            NewBuild(rs + [r], s, k) <==> (k > 0 && r.end < rs[k - 1].end) || (f < |b| && !SameTimes(b[f], r))
  {
    var s, k, all := BuildStart(rs, |rs|), |rs|, rs + [r];
    KeptConsistent(rs);
    hide BuildStart;
    Shifted(rs, s, r);
    FirstSpeaksForAll(rs[s..], r);
    hide First, Consistent;
    assert RanOtherwise(all, s, k, r) <==> RanOtherwise(rs, s, k, r) by {
      assert forall j :: 0 <= j < k ==> all[j] == rs[j];
    }
    hide RanOtherwise;
    assert all[k] == r && (k > 0 ==> all[k - 1] == rs[k - 1]);
  }

  predicate Consistent(b: seq<Record>) {
    forall i, j {:trigger SameTimes(b[i], b[j])} :: 0 <= i < j < |b| && b[i].hash == b[j].hash ==> SameTimes(b[i], b[j])
  }

  lemma {:induction false} KeptConsistent(rs: seq<Record>)
    ensures Consistent(rs[BuildStart(rs, |rs|)..])
  {
    var s := BuildStart(rs, |rs|);
    var b := rs[s..];
    hide BuildStart, SameTimes;
    forall i, j | 0 <= i < j < |b| && b[i].hash == b[j].hash
      ensures SameTimes(b[i], b[j])
    {
      var x, y := s + i, s + j;
      assert rs[x] == b[i] && rs[y] == b[j];
      BuildConsistent(rs, |rs|, x, y);
    }
  }

  lemma {:induction false} Shifted(rs: seq<Record>, s: nat, r: Record)
    requires s <= |rs|
    ensures RanOtherwise(rs, s, |rs|, r) <==> RanOtherwise(rs[s..], 0, |rs| - s, r)
  {
    var b := rs[s..];
    if RanOtherwise(rs, s, |rs|, r) {
      var j :| s <= j < |rs| && rs[j].hash == r.hash && !SameTimes(rs[j], r);
      assert b[j - s] == rs[j];
    }
    if RanOtherwise(b, 0, |b|, r) {
      var j :| 0 <= j < |b| && b[j].hash == r.hash && !SameTimes(b[j], r);
      assert rs[j + s] == b[j];
    }
  }

  lemma {:induction false} FirstSpeaksForAll(b: seq<Record>, r: Record)
    requires Consistent(b)
    ensures RanOtherwise(b, 0, |b|, r) <==> First(b, r.hash) < |b| && !SameTimes(b[First(b, r.hash)], r)
  {
    var f := First(b, r.hash);
    FirstIs(b, r.hash);
    hide First;
    if RanOtherwise(b, 0, |b|, r) {
      var j :| 0 <= j < |b| && b[j].hash == r.hash && !SameTimes(b[j], r);
      assert f <= j;
      assert f < j ==> SameTimes(b[f], b[j]);
    }
  }

  /** The records that the reader groups. */
  function Kept(rs: seq<Record>, showAll: bool): seq<Record> {
    if showAll then rs else rs[BuildStart(rs, |rs|)..]
  }

  /** The last end time seen. */
  function LastEnd(rs: seq<Record>): int {
    if rs == [] then 0 else rs[|rs| - 1].end
  }

  /** What one more record does to the records kept. */
  lemma {:induction false} KeptNext(rs: seq<Record>, r: Record, showAll: bool)
    ensures var kept := Kept(rs, showAll);
            var f := First(kept, r.hash);
            Kept(rs + [r], showAll) ==
            if !showAll && ((rs != [] && r.end < rs[|rs| - 1].end) || (f < |kept| && !SameTimes(kept[f], r)))
            then [r] else kept + [r]
  {
    if !showAll {
      BuildStartPrefix(rs, rs + [r], |rs|);
      NewBuildIff(rs, r);
      var s, all := BuildStart(rs, |rs|), rs + [r];
      assert all[s..] == rs[s..] + [r] && all[|rs|..] == [r];
    }
  }

  /** The body of the reader's loop: resets the dictionary when a new build shows, then adds the record. */
  method AddRecord(dict0: map<Text, Target>, order0: seq<Text>, lastEnd: int, record: Record, showAll: bool,
                   ghost rs: seq<Record>)
    returns (dict: map<Text, Target>, order: seq<Text>)
    requires Holds(dict0, order0, Kept(rs, showAll)) && lastEnd == LastEnd(rs)
    ensures Holds(dict, order, Kept(rs + [record], showAll))
  {
    ResetIff(dict0, order0, rs, record, showAll);
    NothingHeld();
    ghost var base := if MustReset(dict0, lastEnd, record, showAll) then [] else Kept(rs, showAll);
    hide Holds, Kept;
    dict, order := dict0, order0;
    if !showAll && record.end < lastEnd {
      dict, order := map[], [];
    }
    if record.hash in dict && !showAll &&
        (dict[record.hash].start != record.start || dict[record.hash].end != record.end) {
      dict, order := map[], [];
    }
    HoldsNext(dict, order, base, record);
    var target := if record.hash in dict then dict[record.hash] else Target(record.start, record.end, []);
    if record.hash !in dict {
      order := order + [record.hash];
    }
    dict := dict[record.hash := target.(names := target.names + [record.name])];
  }

  /** The targets are the grouping of all well-formed lines, or of those of the last build. */
  method ReadTargets(header: Header, lines: seq<Line>, showAll: bool) returns (r: Result)
    ensures header != Version5 ==> r == UnrecognizedVersion
    ensures header == Version5 && !Readable(lines, |lines|) ==> r == ValueError
    ensures header == Version5 && Readable(lines, |lines|) ==>
              r == Targets(Grouping(Kept(Records(lines, |lines|), showAll)))
    ensures header == Version5 && Readable(lines, |lines|) && showAll ==>
              r == Targets(Grouping(Records(lines, |lines|)))
  {
    if header != Version5 {
      return UnrecognizedVersion;
    }
    var dict: map<Text, Target>, order: seq<Text>, lastEnd := map[], [], 0;
    hide *;
    Nothing(lines, showAll);
    for i := 0 to |lines|
      invariant Readable(lines, i)
      invariant Holds(dict, order, Kept(Records(lines, i), showAll)) && lastEnd == LastEnd(Records(lines, i))
    {
      RecordsNext(lines, i);
      if lines[i].NotNumbers? {
        Unreadable(lines, i);
        return ValueError;
      }
      if lines[i].Fields? {
        var record := lines[i].record;
        dict, order := AddRecord(dict, order, lastEnd, record, showAll, Records(lines, i));
        lastEnd := record.end;
      }
    }
    HoldsAll(dict, order, Kept(Records(lines, |lines|), showAll));
    AllKept(Records(lines, |lines|));
    r := Targets(InOrder(dict, order));
  }

  lemma {:induction false} AllKept(rs: seq<Record>)
    ensures Kept(rs, true) == rs
  {
  }

  lemma {:induction false} Nothing(lines: seq<Line>, showAll: bool)
    ensures Readable(lines, 0) && Holds(map[], [], Kept(Records(lines, 0), showAll)) && LastEnd(Records(lines, 0)) == 0
  {
  }

  lemma {:induction false} Unreadable(lines: seq<Line>, i: nat)
    requires i < |lines| && lines[i].NotNumbers?
    ensures !Readable(lines, |lines|)
  {
  }

  lemma {:induction false} RecordsNext(lines: seq<Line>, i: nat)
    requires i < |lines| && Readable(lines, i)
    ensures Readable(lines, i + 1) <==> !lines[i].NotNumbers?
    ensures lines[i].Fields? ==> Records(lines, i + 1) == Records(lines, i) + [lines[i].record]
    ensures lines[i].Fields? ==> LastEnd(Records(lines, i + 1)) == lines[i].record.end
    ensures !lines[i].Fields? ==> Records(lines, i + 1) == Records(lines, i)
  {
  }

  /** The values of the dictionary, in insertion order. */
  function InOrder(dict: map<Text, Target>, order: seq<Text>): seq<Target>
    requires forall i :: 0 <= i < |order| ==> order[i] in dict
  {
    seq(|order|, i requires 0 <= i < |order| => dict[order[i]])
  }

  lemma {:induction false} HoldsAll(dict: map<Text, Target>, order: seq<Text>, rs: seq<Record>)
    requires Holds(dict, order, rs)
    ensures forall i :: 0 <= i < |order| ==> order[i] in dict
    ensures InOrder(dict, order) == Grouping(rs)
  {
    hide First, NamesOf, Hashes;
    forall i | 0 <= i < |order|
      ensures order[i] in dict
    {
      HashesAre(rs, order[i]);
    }
    assert forall i :: 0 <= i < |order| ==> InOrder(dict, order)[i] == Grouping(rs)[i];
  }

  /** When the dictionary is to be emptied before a record is added. */
  predicate MustReset(dict: map<Text, Target>, lastEnd: int, r: Record, showAll: bool) {
    !showAll && (r.end < lastEnd || (r.hash in dict && (dict[r.hash].start != r.start || dict[r.hash].end != r.end)))
  }

  /** The dictionary is emptied exactly when the records kept so far are given up. */
  lemma {:induction false} ResetIff(dict: map<Text, Target>, order: seq<Text>, rs: seq<Record>, r: Record,
                                    showAll: bool)
    requires Holds(dict, order, Kept(rs, showAll))
    ensures Kept(rs + [r], showAll) ==
            (if MustReset(dict, LastEnd(rs), r, showAll) then [] else Kept(rs, showAll)) + [r]
  {
    KeptNext(rs, r, showAll);
    var kept := Kept(rs, showAll);
    assert rs == [] ==> kept == [];
    HeldTimes(dict, order, kept, r.hash);
  }

  lemma {:induction false} HeldTimes(dict: map<Text, Target>, order: seq<Text>, rs: seq<Record>, h: Text)
    requires Holds(dict, order, rs)
    ensures var f := First(rs, h);
            (h in dict <==> f < |rs|) && (f < |rs| ==> dict[h].start == rs[f].start && dict[h].end == rs[f].end)
  {
  }

  lemma {:induction false} NothingHeld()
    ensures Holds(map[], [], [])
  {
  }

  // ---- What the grouping is -------------------------------------------------------------------

  /** How many of the first `n` lines are well formed. */
  function CountFields(lines: seq<Line>, n: nat): nat
    requires n <= |lines|
  {
    if n == 0 then 0 else CountFields(lines, n - 1) + if lines[n - 1].Fields? then 1 else 0
  }

  /** The records are those of the well-formed lines, in order. */
  lemma {:induction false} RecordsAre(lines: seq<Line>, n: nat, i: nat)
    requires i <= n <= |lines|
    ensures |Records(lines, n)| == CountFields(lines, n)
    ensures i < n && lines[i].Fields? ==>
              CountFields(lines, i) < CountFields(lines, n) &&
              Records(lines, n)[CountFields(lines, i)] == lines[i].record
  {
    if n > 0 {
      RecordsAre(lines, n - 1, if i < n then i else n - 1);
    }
  }

  /** How many of the first `n` records have a hash. */
  function CountHash(rs: seq<Record>, n: nat, h: Text): nat
    requires n <= |rs|
  {
    if n == 0 then 0 else CountHash(rs, n - 1, h) + if rs[n - 1].hash == h then 1 else 0
  }

  lemma {:induction false} CountHashPrefix(rs: seq<Record>, all: seq<Record>, n: nat, h: Text)
    requires rs <= all && n <= |rs|
    ensures CountHash(all, n, h) == CountHash(rs, n, h)
  {
    if n > 0 {
      CountHashPrefix(rs, all, n - 1, h);
    }
  }

  /** The names of a hash are those of its records, in order. */
  lemma {:induction false} NamesAre(rs: seq<Record>, h: Text, i: nat)
    requires i <= |rs|
    ensures |NamesOf(rs, h)| == CountHash(rs, |rs|, h)
    ensures i < |rs| && rs[i].hash == h ==>
              CountHash(rs, i, h) < |NamesOf(rs, h)| && NamesOf(rs, h)[CountHash(rs, i, h)] == rs[i].name
  {
    if rs != [] {
      var n := |rs| - 1;
      NamesAre(rs[..n], h, if i < n then i else n);
      CountHashPrefix(rs[..n], rs, n, h);
      CountHashPrefix(rs[..n], rs, if i < n then i else n, h);
    }
  }

  /** Record `f` is the first with its hash. */
  predicate IsFirst(rs: seq<Record>, f: nat) {
    f < |rs| && forall j :: 0 <= j < f ==> rs[j].hash != rs[f].hash
  }

  /** Target `k` of a grouping is that of a record that is the first with its hash: it has the times of that record and
      the names of all records with the hash. */
  lemma {:induction false} GroupingAt(rs: seq<Record>, k: nat) returns (f: nat)
    requires k < |Grouping(rs)|
    ensures IsFirst(rs, f) && Hashes(rs)[k] == rs[f].hash
    ensures Grouping(rs)[k] == Target(rs[f].start, rs[f].end, NamesOf(rs, rs[f].hash))
  {
    hide First, Hashes, NamesOf;
    var h := Hashes(rs)[k];
    HashesAre(rs, h);
    FirstIs(rs, h);
    f := First(rs, h);
  }

  /** Every record that is the first with its hash has a target, and targets are in the order of these records. */
  lemma {:induction false} TargetOfFirst(rs: seq<Record>, f: nat) returns (k: nat)
    requires IsFirst(rs, f)
    ensures k < |Grouping(rs)| && Hashes(rs)[k] == rs[f].hash
    ensures forall g :: f < g && IsFirst(rs, g) ==> rs[g].hash !in Hashes(rs)[..k + 1]
  {
    var n := |rs| - 1;
    if f == n {
      k := |Hashes(rs[..n])|;
      FirstIs(rs[..n], rs[n].hash);
      assert forall j :: 0 <= j < n ==> rs[..n][j] == rs[j];
      assert First(rs[..n], rs[n].hash) == n;
    } else {
      assert IsFirst(rs[..n], f) by {
        assert forall j :: 0 <= j < n ==> rs[..n][j] == rs[j];
      }
      k := TargetOfFirst(rs[..n], f);
      assert Hashes(rs)[..k + 1] == Hashes(rs[..n])[..k + 1];
      LaterFirst(rs, rs[..n], f, k);
    }
  }

  lemma {:induction false} LaterFirst(rs: seq<Record>, front: seq<Record>, f: nat, k: nat)
    requires f < |rs| - 1 && front == rs[..|rs| - 1] && k < |Hashes(front)|
    requires forall g :: f < g && IsFirst(front, g) ==> front[g].hash !in Hashes(front)[..k + 1]
    ensures forall g :: f < g && IsFirst(rs, g) ==> rs[g].hash !in Hashes(front)[..k + 1]
  {
    hide Hashes;
    assert forall j :: 0 <= j < |front| ==> front[j] == rs[j];
    forall g | f < g && IsFirst(rs, g)
      ensures rs[g].hash !in Hashes(front)[..k + 1]
    {
      if g < |front| {
        assert IsFirst(front, g);
      } else if rs[g].hash in Hashes(front)[..k + 1] {
        HashesAre(front, rs[g].hash);
        FirstIs(front, rs[g].hash);
      }
    }
  }

  // ---- What the result says of the log --------------------------------------------------------

  /** In the last build every record belongs to a target with exactly its times. */
  lemma {:induction false} TargetOfRecord(rs: seq<Record>, i: nat) returns (k: nat)
    requires i < |Kept(rs, false)|
    ensures var kept := Kept(rs, false);
            && k < |Grouping(kept)| && Hashes(kept)[k] == kept[i].hash
            && Grouping(kept)[k].start == kept[i].start && Grouping(kept)[k].end == kept[i].end
  {
    KeptConsistent(rs);
    var kept := rs[BuildStart(rs, |rs|)..];
    hide BuildStart;
    var h := kept[i].hash;
    var f := First(kept, h);
    FirstIs(kept, h);
    HashesAre(kept, h);
    hide First, Hashes, NamesOf;
    assert f < i ==> SameTimes(kept[f], kept[i]);
    k :| 0 <= k < |Hashes(kept)| && Hashes(kept)[k] == h;
  }

  function CountNames(rs: seq<Record>, hs: seq<Text>, n: nat): nat
    requires n <= |hs|
  {
    if n == 0 then 0 else CountNames(rs, hs, n - 1) + |NamesOf(rs, hs[n - 1])|
  }

  function Hits(hs: seq<Text>, n: nat, h: Text): nat
    requires n <= |hs|
  {
    if n == 0 then 0 else Hits(hs, n - 1, h) + if hs[n - 1] == h then 1 else 0
  }

  lemma {:induction false} CountNext(rs: seq<Record>, r: Record, hs: seq<Text>, n: nat)
    requires n <= |hs|
    ensures CountNames(rs + [r], hs, n) == CountNames(rs, hs, n) + Hits(hs, n, r.hash)
  {
    hide First, NamesOf, Hashes;
    if n == 0 {
    } else {
      CountNext(rs, r, hs, n - 1);
      Snoc(rs, r, hs[n - 1]);
    }
  }

  lemma {:induction false} CountPrefix(rs: seq<Record>, hs: seq<Text>, all: seq<Text>, n: nat)
    requires n <= |hs| && hs <= all
    ensures CountNames(rs, all, n) == CountNames(rs, hs, n)
  {
    if n == 0 {
    } else {
      CountPrefix(rs, hs, all, n - 1);
    }
  }

  lemma {:induction false} HitsNone(hs: seq<Text>, n: nat, h: Text)
    requires n <= |hs| && forall i :: 0 <= i < n ==> hs[i] != h
    ensures Hits(hs, n, h) == 0
  {
    if n == 0 {
    } else {
      HitsNone(hs, n - 1, h);
    }
  }

  /** A hash is listed once when it occurs. */
  lemma {:induction false} HitsOnce(rs: seq<Record>, n: nat, h: Text, i: nat)
    requires i < n <= |Hashes(rs)| && Hashes(rs)[i] == h
    ensures Hits(Hashes(rs), n, h) == 1
  {
    var hs := Hashes(rs);
    hide Hashes;
    if i == n - 1 {
      forall j | 0 <= j < n - 1
        ensures hs[j] != h
      {
        HashesDistinct(rs, j, i);
      }
      HitsNone(hs, n - 1, h);
    } else {
      HitsOnce(rs, n - 1, h, i);
      HashesDistinct(rs, i, n - 1);
    }
  }

  lemma {:induction false} HitsIff(rs: seq<Record>, h: Text)
    ensures var hs := Hashes(rs); Hits(hs, |hs|, h) == if First(rs, h) < |rs| then 1 else 0
  {
    var hs := Hashes(rs);
    HashesAre(rs, h);
    hide Hashes, First;
    if First(rs, h) < |rs| {
      var i :| 0 <= i < |hs| && hs[i] == h;
      HitsOnce(rs, |hs|, h, i);
    } else {
      HitsNone(hs, |hs|, h);
    }
  }

  /** One more record adds one name. */
  lemma {:induction false} CountSnoc(rs: seq<Record>, r: Record)
    ensures TotalNames(rs + [r]) == TotalNames(rs) + 1
  {
    var hs, all := Hashes(rs), Hashes(rs + [r]);
    CountNext(rs, r, hs, |hs|);
    HitsIff(rs, r.hash);
    Snoc(rs, r, r.hash);
    hide Hashes, First, NamesOf;
    CountPrefix(rs + [r], hs, all, |hs|);
    if First(rs, r.hash) == |rs| {
      NoNames(rs, r.hash);
      assert all[|hs|] == r.hash;
    }
  }

  /** The number of names in the targets of some records. */
  function TotalNames(rs: seq<Record>): nat {
    CountNames(rs, Hashes(rs), |Hashes(rs)|)
  }

  /** Every record gives exactly one name to exactly one target. */
  lemma {:induction false} EveryRecordOnce(rs: seq<Record>)
    ensures TotalNames(rs) == |rs|
  {
    if rs == [] {
    } else {
      hide *;
      var n := |rs| - 1;
      EveryRecordOnce(rs[..n]);
      CountSnoc(rs[..n], rs[n]);
      assert rs == rs[..n] + [rs[n]];
    }
  }
}
