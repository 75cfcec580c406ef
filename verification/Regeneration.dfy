/** Rebuilding the bucket table from the raw records, with queries grouped per range of ages. */
module Regeneration {
  import opened Granularities
  import opened Remainders
  import opened Buckets
  import opened BucketTables
  import opened Grouping
  import opened Sums

  datatype RawRecord = RawRecord(keys: seq<int>, values: Row, start: int, end: int)

  /** How a raw record is read: COUNT and the constant 1 stand after the value fields. */
  function RawReading(): Reading<RawRecord> {
    Reading((r: RawRecord) => r.keys, (r: RawRecord) => r.values + [1.0],
            (r: RawRecord) => r.start, (r: RawRecord) => r.end)
  }

  /** The end of the `i`-th range of ages: the spans are taken off one after the other. */
  function Boundary(cfg: seq<Granularity>, now: int, i: nat): int
    requires i <= |cfg|
  {
    if i == 0 then now else Boundary(cfg, now, i - 1) - cfg[i - 1].span
  }

  function Spans(cfg: seq<Granularity>): int {
    if cfg == [] then 0 else cfg[0].span + Spans(cfg[1..])
  }

  lemma {:induction false} SpansMore(cfg: seq<Granularity>, i: nat)
    requires i < |cfg|
    ensures Spans(cfg[..i + 1]) == Spans(cfg[..i]) + cfg[i].span
    decreases i
  {
    if i > 0 {
      SpansMore(cfg[1..], i - 1);
      assert cfg[..i + 1][1..] == cfg[1..][..i] && cfg[..i][1..] == cfg[1..][..i - 1];
    } else {
      assert cfg[..1][1..] == [];
    }
  }

  /** The WHERE clause of range `i`; the last range reaches back without end. */
  predicate InRange(cfg: seq<Granularity>, now: int, i: nat, r: RawRecord)
    requires i < |cfg|
  {
    if i == |cfg| - 1 then r.end <= Boundary(cfg, now, i)
    else r.start > Boundary(cfg, now, i) - cfg[i].span && r.end <= Boundary(cfg, now, i)
  }

  /** Range `i` holds the records that end when all earlier spans are over and, unless it is the last, begin before its
      own is. */
  lemma {:induction false} RangeIs(cfg: seq<Granularity>, now: int, i: nat, r: RawRecord)
    requires i < |cfg|
    ensures Boundary(cfg, now, i) == now - Spans(cfg[..i])
    ensures InRange(cfg, now, i, r) <==>
      now - r.end >= Spans(cfg[..i]) && (i < |cfg| - 1 ==> now - r.start < Spans(cfg[..i + 1]))
    decreases i
  {
    SpansMore(cfg, i);
    if i > 0 { RangeIs(cfg, now, i - 1, r); SpansMore(cfg, i - 1); }
  }

  predicate SameBucket(w: int, r: RawRecord)
    requires w > 0
  {
    r.start - Mod(r.start, w) == r.end - Mod(r.end, w)
  }

  /** Two queries to a range, and one for the records that lie in no range. */
  datatype Query = Grouped(range: nat) | Single(range: nat) | Between

  function Queries(cfg: seq<Granularity>, i: nat): seq<Query>
    requires i <= |cfg|
    decreases |cfg| - i
  {
    if i == |cfg| then [Between] else [Grouped(i), Single(i)] + Queries(cfg, i + 1)
  }

  predicate Selects(cfg: seq<Granularity>, now: int, q: Query, r: RawRecord)
    requires Usable(cfg)
  {
    match q
    case Grouped(i) => i < |cfg| && InRange(cfg, now, i, r) && SameBucket(cfg[i].width, r)
    case Single(i) => i < |cfg| && InRange(cfg, now, i, r) && !SameBucket(cfg[i].width, r)
    case Between => forall i :: 0 <= i < |cfg| ==> !InRange(cfg, now, i, r)
  }

  /** How many of the queries return record `r`. */
  function Matches(cfg: seq<Granularity>, now: int, qs: seq<Query>, r: RawRecord): nat
    requires Usable(cfg)
  {
    if qs == [] then 0 else (if Selects(cfg, now, qs[0], r) then 1 else 0) + Matches(cfg, now, qs[1..], r)
  }

  function RangesOf(cfg: seq<Granularity>, now: int, i: nat, r: RawRecord): nat
    requires i <= |cfg|
    decreases |cfg| - i
  {
    if i == |cfg| then 0 else (if InRange(cfg, now, i, r) then 1 else 0) + RangesOf(cfg, now, i + 1, r)
  }

  /** The record ends at or before an inner boundary and starts after it. */
  ghost predicate Straddles(cfg: seq<Granularity>, now: int, r: RawRecord) {
    exists i :: 1 <= i < |cfg| && r.end <= Boundary(cfg, now, i) < r.start
  }

  lemma {:induction false} BoundariesFall(cfg: seq<Granularity>, now: int, i: nat, j: nat)
    requires Widening(cfg) && i <= j <= |cfg|
    ensures Boundary(cfg, now, j) <= Boundary(cfg, now, i)
    decreases j - i
  {
    if i < j { BoundariesFall(cfg, now, i, j - 1); }
  }

  lemma {:induction false} NoRange(cfg: seq<Granularity>, now: int, i: nat, r: RawRecord)
    requires i <= |cfg|
    ensures RangesOf(cfg, now, i, r) == 0 <==> forall j :: i <= j < |cfg| ==> !InRange(cfg, now, j, r)
    decreases |cfg| - i
  {
    if i < |cfg| { NoRange(cfg, now, i + 1, r); }
  }

  /** A range answers with exactly one of its two queries. */
  lemma {:induction false} MatchesPerRange(cfg: seq<Granularity>, now: int, i: nat, r: RawRecord)
    requires Usable(cfg) && i <= |cfg|
    ensures Matches(cfg, now, Queries(cfg, i), r)
         == RangesOf(cfg, now, i, r) + if RangesOf(cfg, now, 0, r) == 0 then 1 else 0
    decreases |cfg| - i
  {
    var qs := Queries(cfg, i);
    if i == |cfg| {
      NoRange(cfg, now, 0, r);
      assert qs[1..] == [];
    } else {
      MatchesPerRange(cfg, now, i + 1, r);
      assert qs[1..] == [Single(i)] + Queries(cfg, i + 1);
      assert qs[1..][1..] == Queries(cfg, i + 1);
    }
  }

  lemma {:induction false} TwoRanges(cfg: seq<Granularity>, now: int, k: nat, r: RawRecord) returns (i: nat, j: nat)
    requires k <= |cfg| && RangesOf(cfg, now, k, r) >= 2
    ensures k <= i < j < |cfg| && InRange(cfg, now, i, r) && InRange(cfg, now, j, r)
    decreases |cfg| - k
  {
    if InRange(cfg, now, k, r) {
      i := k;
      NoRange(cfg, now, k + 1, r);
      j :| k + 1 <= j < |cfg| && InRange(cfg, now, j, r);
    } else {
      i, j := TwoRanges(cfg, now, k + 1, r);
    }
  }

  lemma {:induction false} CountsTwo(cfg: seq<Granularity>, now: int, k: nat, i: nat, j: nat, r: RawRecord)
    requires k <= i < j < |cfg| && InRange(cfg, now, i, r) && InRange(cfg, now, j, r)
    ensures RangesOf(cfg, now, k, r) >= 2
    decreases |cfg| - k
  {
    if k < i {
      CountsTwo(cfg, now, k + 1, i, j, r);
    } else {
      NoRange(cfg, now, k + 1, r);
    }
  }

  /** Every record is returned by some query, and by exactly one unless it runs backwards over an inner boundary. */
  lemma QueriesPartition(cfg: seq<Granularity>, now: int, r: RawRecord)
    requires Widening(cfg)
    ensures Matches(cfg, now, Queries(cfg, 0), r) >= 1
    ensures Matches(cfg, now, Queries(cfg, 0), r) == 1 <==> !Straddles(cfg, now, r)
    ensures r.start <= r.end ==> Matches(cfg, now, Queries(cfg, 0), r) == 1
  {
    MatchesPerRange(cfg, now, 0, r);
    if RangesOf(cfg, now, 0, r) >= 2 {
      var i, j := TwoRanges(cfg, now, 0, r);
      BoundariesFall(cfg, now, i + 1, j);
      assert r.end <= Boundary(cfg, now, i + 1) < r.start;
    }
    if Straddles(cfg, now, r) {
      var i :| 1 <= i < |cfg| && r.end <= Boundary(cfg, now, i) < r.start;
      assert InRange(cfg, now, i - 1, r) && InRange(cfg, now, i, r) by {
        assert Boundary(cfg, now, i) == Boundary(cfg, now, i - 1) - cfg[i - 1].span;
      }
      CountsTwo(cfg, now, 0, i - 1, i, r);
    }
  }

  // The entries the queries return, and their sums.

  function Selection(cfg: seq<Granularity>, now: int, q: Query, raw: seq<RawRecord>): seq<RawRecord>
    requires Usable(cfg)
  {
    if raw == [] then []
    else (if Selects(cfg, now, q, raw[0]) then [raw[0]] else []) + Selection(cfg, now, q, raw[1..])
  }

  function StartBucket(w: int): RawRecord -> (seq<int>, int)
    requires w > 0
  {
    (r: RawRecord) => (r.keys, r.start - Mod(r.start, w))
  }

  function RawEntry(r: RawRecord): Entry {
    Entry(r.keys, r.values + [1.0], r.start, r.end)
  }

  function RawEntries(rs: seq<RawRecord>): seq<Entry> {
    seq(|rs|, i requires 0 <= i < |rs| => RawEntry(rs[i]))
  }

  function SumEntries(groups: seq<seq<RawRecord>>): seq<Entry>
    requires forall i :: 0 <= i < |groups| ==> groups[i] != []
  {
    seq(|groups|, i requires 0 <= i < |groups| => GroupEntry(groups[i], RawReading()))
  }

  /** `entries` is what query `q` may return: one row per group, or one per record. */
  ghost predicate Returns(cfg: seq<Granularity>, now: int, raw: seq<RawRecord>, q: Query, entries: seq<Entry>)
    requires Usable(cfg)
  {
    var rs := Selection(cfg, now, q, raw);
    if q.Grouped? && q.range < |cfg| then
      exists groups :: IsGrouping(groups, rs, StartBucket(cfg[q.range].width)) && entries == SumEntries(groups)
    else entries == RawEntries(rs)
  }

  ghost predicate AllReturn(cfg: seq<Granularity>, now: int, raw: seq<RawRecord>, qs: seq<Query>,
                            batches: seq<seq<Entry>>)
    requires Usable(cfg)
    decreases |qs|
  {
    if qs == [] then batches == []
    else batches != [] && Returns(cfg, now, raw, qs[0], batches[0]) && AllReturn(cfg, now, raw, qs[1..], batches[1..])
  }

  lemma {:induction false} ReturnsAt(cfg: seq<Granularity>, now: int, raw: seq<RawRecord>, qs: seq<Query>,
                                     batches: seq<seq<Entry>>)
    requires Usable(cfg) && AllReturn(cfg, now, raw, qs, batches)
    ensures |batches| == |qs| && forall i :: 0 <= i < |qs| ==> Returns(cfg, now, raw, qs[i], batches[i])
    decreases |qs|
  {
    if qs != [] {
      ReturnsAt(cfg, now, raw, qs[1..], batches[1..]);
      forall i | 0 <= i < |qs| ensures Returns(cfg, now, raw, qs[i], batches[i]) {
        if i > 0 { assert Returns(cfg, now, raw, qs[1..][i - 1], batches[1..][i - 1]); }
      }
    }
  }

  lemma {:induction false} ReturnsMore(cfg: seq<Granularity>, now: int, raw: seq<RawRecord>, qs: seq<Query>,
                                       batches: seq<seq<Entry>>, q: Query, entries: seq<Entry>)
    requires Usable(cfg) && AllReturn(cfg, now, raw, qs, batches) && Returns(cfg, now, raw, q, entries)
    ensures AllReturn(cfg, now, raw, qs + [q], batches + [entries])
    decreases |qs|
  {
    if qs == [] {
      assert [q][1..] == [] && [entries][1..] == [];
    } else {
      assert (qs + [q])[1..] == qs[1..] + [q] && (batches + [entries])[1..] == batches[1..] + [entries];
      ReturnsMore(cfg, now, raw, qs[1..], batches[1..], q, entries);
    }
  }

  // What a grouped query returns, record by record.

  /** The record has the key fields of the entry and starts in the bucket of width `w` in which the entry starts. */
  predicate Joins(w: int, r: RawRecord, e: Entry)
    requires w > 0
  {
    r.keys == e.keys && Floor(r.start, w) == Floor(e.start, w)
  }

  /** What a record adds to field `f` of an entry that it joins: its value or, after the values, one. */
  function JoinedAmount(w: int, e: Entry, f: nat): RawRecord -> real
    requires w > 0
  {
    (r: RawRecord) => if Joins(w, r, e) then FieldOrOne(r, f) else 0.0
  }

  function FieldOrOne(r: RawRecord, f: nat): real {
    if f < |r.values| then r.values[f] else if f == |r.values| then 1.0 else 0.0
  }

  /** The entry sums up the records that join it, and spans the time from their first start to their last end. */
  ghost predicate SumsUp(rs: seq<RawRecord>, w: int, e: Entry)
    requires w > 0
  {
    && (forall f: nat :: Field(e.row, f) == SeqSum(rs, JoinedAmount(w, e, f)))
    && (forall r :: r in rs && Joins(w, r, e) ==> e.start <= r.start && r.end <= e.end)
    && (exists r :: r in rs && Joins(w, r, e) && r.start == e.start)
    && (exists r :: r in rs && Joins(w, r, e) && r.end == e.end)
  }

  /** One entry for each combination of key fields and bucket of width `w` among the records, summing them up. */
  ghost predicate OnePerBucket(rs: seq<RawRecord>, w: int, entries: seq<Entry>)
    requires w > 0
  {
    && (forall e :: e in entries ==> SumsUp(rs, w, e) && Floor(e.start, w) == Floor(e.end, w))
    && (forall i, j :: 0 <= i < j < |entries| && entries[i].keys == entries[j].keys ==>
          Floor(entries[i].start, w) != Floor(entries[j].start, w))
    && (forall r :: r in rs ==> exists e :: e in entries && Joins(w, r, e))
  }

  /** The entry of a group is joined by exactly the records of the group. */
  lemma MembersJoin(groups: seq<seq<RawRecord>>, rs: seq<RawRecord>, w: int, i: nat, r: RawRecord)
    requires w > 0 && IsGrouping(groups, rs, StartBucket(w)) && i < |groups| && r in rs
    ensures Joins(w, r, SumEntries(groups)[i]) <==> r in groups[i]
    ensures Joins(w, r, SumEntries(groups)[i]) <==> StartBucket(w)(r) == StartBucket(w)(groups[i][0])
  {
    var g := groups[i];
    assert g != [] && SumEntries(groups)[i] == GroupEntry(g, RawReading());
    var first :| first in g && RawReading().start(first) == MinOf(g, RawReading().start);
    assert StartBucket(w)(first) == StartBucket(w)(g[0]);
    assert r in multiset(Flatten(groups));
    var j := GroupOf(groups, r);
    if i < j || j < i { assert StartBucket(w)(groups[i][0]) != StartBucket(w)(groups[j][0]); }
  }

  lemma {:induction false} GroupOf<T>(groups: seq<seq<T>>, x: T) returns (i: nat)
    requires x in Flatten(groups)
    ensures i < |groups| && x in groups[i]
    decreases |groups|
  {
    if x in groups[0] {
      i := 0;
    } else {
      i := GroupOf(groups[1..], x);
      i := i + 1;
    }
  }

  /** Every item is in one group, so a sum over the items of one group is one over all items. */
  lemma SumOfGroup(groups: seq<seq<RawRecord>>, rs: seq<RawRecord>, w: int, i: nat, f: nat)
    requires w > 0 && IsGrouping(groups, rs, StartBucket(w)) && i < |groups|
    ensures var e := SumEntries(groups)[i]; Field(e.row, f) == SeqSum(rs, JoinedAmount(w, e, f))
  {
    var e, v := SumEntries(groups)[i], JoinedAmount(w, SumEntries(groups)[i], f);
    var totals := (g: seq<RawRecord>) => SeqSum(g, v);
    SeqSumFlatten(groups, v, totals);
    SeqSumPermuted(Flatten(groups), rs, v);
    forall j | 0 <= j < |groups| && j != i ensures totals(groups[j]) == 0.0 { OutsideGroup(groups, rs, w, i, j, f); }
    SeqSumOfOne(groups, totals, i);
    InsideGroup(groups, rs, w, i, f);
  }

  lemma OutsideGroup(groups: seq<seq<RawRecord>>, rs: seq<RawRecord>, w: int, i: nat, j: nat, f: nat)
    requires w > 0 && IsGrouping(groups, rs, StartBucket(w)) && i < |groups| && j < |groups| && i != j
    ensures SeqSum(groups[j], JoinedAmount(w, SumEntries(groups)[i], f)) == 0.0
  {
    var v := JoinedAmount(w, SumEntries(groups)[i], f);
    forall r | r in groups[j] ensures v(r) == 0.0 {
      GroupedItem(groups, rs, StartBucket(w), groups[j], r);
      MembersJoin(groups, rs, w, i, r);
      assert StartBucket(w)(groups[i][0]) != StartBucket(w)(groups[j][0]);
    }
    SeqSumOfZero(groups[j], v);
  }

  lemma InsideGroup(groups: seq<seq<RawRecord>>, rs: seq<RawRecord>, w: int, i: nat, f: nat)
    requires w > 0 && IsGrouping(groups, rs, StartBucket(w)) && i < |groups|
    ensures var e := SumEntries(groups)[i]; Field(e.row, f) == SeqSum(groups[i], JoinedAmount(w, e, f))
  {
    var v := JoinedAmount(w, SumEntries(groups)[i], f);
    FieldOfSumRows(groups[i], RawReading().row, f);
    forall r | r in groups[i] ensures v(r) == FieldOf(RawReading().row, f)(r) {
      GroupedItem(groups, rs, StartBucket(w), groups[i], r);
      MembersJoin(groups, rs, w, i, r);
    }
    SeqSumCongruent(groups[i], FieldOf(RawReading().row, f), v);
  }

  lemma GroupSumsUp(groups: seq<seq<RawRecord>>, rs: seq<RawRecord>, w: int, i: nat)
    requires w > 0 && IsGrouping(groups, rs, StartBucket(w)) && i < |groups|
    ensures SumsUp(rs, w, SumEntries(groups)[i])
  {
    var g, e := groups[i], SumEntries(groups)[i];
    forall f: nat ensures Field(e.row, f) == SeqSum(rs, JoinedAmount(w, e, f)) { SumOfGroup(groups, rs, w, i, f); }
    forall r | r in rs && Joins(w, r, e) ensures e.start <= r.start && r.end <= e.end {
      MembersJoin(groups, rs, w, i, r);
    }
    var first :| first in g && RawReading().start(first) == MinOf(g, RawReading().start);
    var last :| last in g && RawReading().end(last) == MaxOf(g, RawReading().end);
    GroupedItem(groups, rs, StartBucket(w), g, first);
    GroupedItem(groups, rs, StartBucket(w), g, last);
    MembersJoin(groups, rs, w, i, first);
    MembersJoin(groups, rs, w, i, last);
  }

  /** The entry lies in one bucket when its records do. */
  lemma InOneBucket(rs: seq<RawRecord>, w: int, e: Entry)
    requires w > 0 && SumsUp(rs, w, e) && forall r :: r in rs ==> SameBucket(w, r)
    ensures Floor(e.start, w) == Floor(e.end, w)
  {
    var last :| last in rs && Joins(w, last, e) && last.end == e.end;
    assert SameBucket(w, last);
  }

  lemma EntrySumsUp(groups: seq<seq<RawRecord>>, rs: seq<RawRecord>, w: int, e: Entry)
    requires w > 0 && IsGrouping(groups, rs, StartBucket(w)) && forall r :: r in rs ==> SameBucket(w, r)
    requires e in SumEntries(groups)
    ensures SumsUp(rs, w, e) && Floor(e.start, w) == Floor(e.end, w)
  {
    var i :| 0 <= i < |groups| && SumEntries(groups)[i] == e;
    GroupSumsUp(groups, rs, w, i);
    InOneBucket(rs, w, e);
  }

  lemma GroupsApart(groups: seq<seq<RawRecord>>, rs: seq<RawRecord>, w: int, i: nat, j: nat)
    requires w > 0 && IsGrouping(groups, rs, StartBucket(w)) && i < j < |groups|
    requires SumEntries(groups)[i].keys == SumEntries(groups)[j].keys
    ensures Floor(SumEntries(groups)[i].start, w) != Floor(SumEntries(groups)[j].start, w)
  {
    var x, y := groups[i][0], groups[j][0];
    GroupedItem(groups, rs, StartBucket(w), groups[i], x);
    GroupedItem(groups, rs, StartBucket(w), groups[j], y);
    MembersJoin(groups, rs, w, i, x);
    MembersJoin(groups, rs, w, j, y);
    assert StartBucket(w)(x) != StartBucket(w)(y);
  }

  /** The first query of range `i` returns one entry for each combination of key fields and bucket of the width of the
      range, among the records of the range that lie in one such bucket. */
  lemma GroupedQueryReturns(cfg: seq<Granularity>, now: int, raw: seq<RawRecord>, i: nat, entries: seq<Entry>)
    requires Usable(cfg) && i < |cfg| && Returns(cfg, now, raw, Grouped(i), entries)
    ensures OnePerBucket(Selection(cfg, now, Grouped(i), raw), cfg[i].width, entries)
    ensures forall r :: r in Selection(cfg, now, Grouped(i), raw) <==>
      r in raw && InRange(cfg, now, i, r) && Floor(r.start, cfg[i].width) == Floor(r.end, cfg[i].width)
  {
    RangeSelects(cfg, now, raw, i);
    GroupedReturns(Selection(cfg, now, Grouped(i), raw), cfg[i].width, entries);
  }

  lemma RangeSelects(cfg: seq<Granularity>, now: int, raw: seq<RawRecord>, i: nat)
    requires Usable(cfg) && i < |cfg|
    ensures forall r :: r in Selection(cfg, now, Grouped(i), raw) <==>
      r in raw && InRange(cfg, now, i, r) && Floor(r.start, cfg[i].width) == Floor(r.end, cfg[i].width)
  {
    SelectionIs(cfg, now, Grouped(i), raw);
  }

  lemma GroupedReturns(rs: seq<RawRecord>, w: int, entries: seq<Entry>)
    requires w > 0 && exists groups :: IsGrouping(groups, rs, StartBucket(w)) && entries == SumEntries(groups)
    requires forall r :: r in rs ==> Floor(r.start, w) == Floor(r.end, w)
    ensures OnePerBucket(rs, w, entries)
  {
    var groups :| IsGrouping(groups, rs, StartBucket(w)) && entries == SumEntries(groups);
    GroupsAreOnePerBucket(groups, rs, w);
  }

  /** Its second query returns the other records of the range as they are. */
  lemma SingleQueryReturns(cfg: seq<Granularity>, now: int, raw: seq<RawRecord>, i: nat, entries: seq<Entry>)
    requires Usable(cfg) && i < |cfg| && Returns(cfg, now, raw, Single(i), entries)
    ensures forall e :: e in entries <==>
      exists r :: r in raw && InRange(cfg, now, i, r) && Floor(r.start, cfg[i].width) != Floor(r.end, cfg[i].width)
        && e == Entry(r.keys, r.values + [1.0], r.start, r.end)
  {
    SelectionIs(cfg, now, Single(i), raw);
    SinglesAre(Selection(cfg, now, Single(i), raw), entries);
  }

  lemma SinglesAre(rs: seq<RawRecord>, singles: seq<Entry>)
    requires singles == RawEntries(rs)
    ensures forall e :: e in singles <==> exists r :: r in rs && e == RawEntry(r)
  {
    forall r | r in rs ensures RawEntry(r) in singles {
      var i :| 0 <= i < |rs| && rs[i] == r;
      assert singles[i] == RawEntry(r);
    }
  }

  lemma GroupsAreOnePerBucket(groups: seq<seq<RawRecord>>, rs: seq<RawRecord>, w: int)
    requires w > 0 && IsGrouping(groups, rs, StartBucket(w)) && forall r :: r in rs ==> SameBucket(w, r)
    ensures OnePerBucket(rs, w, SumEntries(groups))
  {
    var entries := SumEntries(groups);
    forall e | e in entries ensures SumsUp(rs, w, e) && Floor(e.start, w) == Floor(e.end, w) {
      EntrySumsUp(groups, rs, w, e);
    }
    forall i, j | 0 <= i < j < |entries| && entries[i].keys == entries[j].keys
      ensures Floor(entries[i].start, w) != Floor(entries[j].start, w)
    {
      GroupsApart(groups, rs, w, i, j);
    }
    forall r | r in rs ensures exists e :: e in entries && Joins(w, r, e) { RecordJoins(groups, rs, w, r); }
  }

  lemma RecordJoins(groups: seq<seq<RawRecord>>, rs: seq<RawRecord>, w: int, r: RawRecord)
    requires w > 0 && IsGrouping(groups, rs, StartBucket(w)) && r in rs
    ensures exists e :: e in SumEntries(groups) && Joins(w, r, e)
  {
    assert r in multiset(Flatten(groups));
    var i := GroupOf(groups, r);
    MembersJoin(groups, rs, w, i, r);
    assert SumEntries(groups)[i] in SumEntries(groups);
  }

  method RunQuery(cfg: seq<Granularity>, now: int, raw: seq<RawRecord>, q: Query) returns (entries: seq<Entry>)
    requires Usable(cfg)
    ensures Returns(cfg, now, raw, q, entries)
  {
    var rs := Selection(cfg, now, q, raw);
    if q.Grouped? && q.range < |cfg| {
      var groups := GroupBy(rs, StartBucket(cfg[q.range].width));
      entries := SumEntries(groups);
    } else {
      entries := RawEntries(rs);
    }
  }

  /** The table holds what the queries so far returned, each entry split at its own time. */
  ghost predicate Loaded(cfg: seq<Granularity>, t: Table, batches: seq<seq<Entry>>, nows: seq<int>)
    requires Usable(cfg)
  {
    |nows| == |Flatten(batches)| && t == SpreadAll(SplitBy(cfg), map[], TimedEntries(Flatten(batches), nows))
  }

  lemma LoadedMore(cfg: seq<Granularity>, t: Table, batches: seq<seq<Entry>>, nows: seq<int>, entries: seq<Entry>,
                   more: seq<int>)
    requires Usable(cfg) && Loaded(cfg, t, batches, nows) && |more| == |entries|
    ensures Loaded(cfg, SpreadAll(SplitBy(cfg), t, TimedEntries(entries, more)), batches + [entries], nows + more)
  {
    FlattenAppend(batches, entries);
    EntriesConcat(SplitBy(cfg), map[], Flatten(batches), nows, entries, more);
  }

  /** The first queries have been run, and the table holds what they returned. */
  ghost predicate Progress(cfg: seq<Granularity>, lastTime: int, raw: seq<RawRecord>, qs: seq<Query>,
                           batches: seq<seq<Entry>>, nows: seq<int>, t: Table)
    requires Usable(cfg)
  {
    AllReturn(cfg, lastTime, raw, qs, batches) && Loaded(cfg, t, batches, nows)
  }

  lemma NothingIsLoaded(cfg: seq<Granularity>, lastTime: int, raw: seq<RawRecord>)
    requires Usable(cfg)
    ensures Progress(cfg, lastTime, raw, [], [], [], map[])
  {}

  /** Runs one query and splits every entry it returns. */
  method LoadQuery(db: BucketTable, clock: Clock, cfg: seq<Granularity>, lastTime: int, raw: seq<RawRecord>, q: Query,
                   ghost qs: seq<Query>, ghost batches: seq<seq<Entry>>, ghost nows: seq<int>)
    returns (ghost batches': seq<seq<Entry>>, ghost nows': seq<int>)
    requires Usable(cfg) && Progress(cfg, lastTime, raw, qs, batches, nows, db.rows)
    modifies db, clock
    ensures Progress(cfg, lastTime, raw, qs + [q], batches', nows', db.rows)
  {
    ghost var before := db.rows;
    var entries := RunQuery(cfg, lastTime, raw, q);
    ghost var more := SplitAll(db, clock, cfg, entries);
    LoadedMore(cfg, before, batches, nows, entries, more);
    ReturnsMore(cfg, lastTime, raw, qs, batches, q, entries);
    batches', nows' := batches + [entries], nows + more;
  }

  method RegenerateBuckets(db: BucketTable, clock: Clock, cfg: seq<Granularity>, raw: seq<RawRecord>)
    returns (ghost lastTime: int, ghost batches: seq<seq<Entry>>, ghost nows: seq<int>)
    requires Usable(cfg) && cfg != []
    modifies db, clock
    ensures Progress(cfg, lastTime, raw, Queries(cfg, 0), batches, nows, db.rows)
  {
    db.rows := map[];
    var last := clock.Now();
    lastTime := last;
    batches, nows := LoadQueries(db, clock, cfg, last, raw, Queries(cfg, 0));
  }

  /** The loop over the queries. */
  method LoadQueries(db: BucketTable, clock: Clock, cfg: seq<Granularity>, lastTime: int, raw: seq<RawRecord>,
                     qs: seq<Query>)
    returns (ghost batches: seq<seq<Entry>>, ghost nows: seq<int>)
    requires Usable(cfg) && db.rows == map[]
    modifies db, clock
    ensures Progress(cfg, lastTime, raw, qs, batches, nows, db.rows)
  {
    batches, nows := [], [];
    NothingIsLoaded(cfg, lastTime, raw);
    ghost var done: seq<Query> := [];
    for i := 0 to |qs|
      invariant done == qs[..i]
      invariant Progress(cfg, lastTime, raw, done, batches, nows, db.rows)
    {
      batches, nows := LoadQuery(db, clock, cfg, lastTime, raw, qs[i], done, batches, nows);
      done := done + [qs[i]];
    }
    assert done == qs;
  }

  lemma EntriesConcat(split: Splitter, t: Table, xs: seq<Entry>, xnows: seq<int>, ys: seq<Entry>, ynows: seq<int>)
    requires |xs| == |xnows| && |ys| == |ynows|
    ensures SpreadAll(split, t, TimedEntries(xs + ys, xnows + ynows))
         == SpreadAll(split, SpreadAll(split, t, TimedEntries(xs, xnows)), TimedEntries(ys, ynows))
  {
    assert TimedEntries(xs + ys, xnows + ynows) == TimedEntries(xs, xnows) + TimedEntries(ys, ynows);
    SpreadAllConcat(split, t, TimedEntries(xs, xnows), TimedEntries(ys, ynows));
  }

  lemma {:induction false} SpreadAllConcat(split: Splitter, t: Table, xs: seq<Timed>, ys: seq<Timed>)
    ensures SpreadAll(split, t, xs + ys) == SpreadAll(split, SpreadAll(split, t, xs), ys)
    decreases |xs|
  {
    if xs == [] {
      assert xs + ys == ys;
    } else {
      assert (xs + ys)[1..] == xs[1..] + ys;
      SpreadAllConcat(split, Spread(split, t, xs[0]), xs[1..], ys);
    }
  }

  function EntryAmount(keys: seq<int>, f: nat): Entry -> real {
    (e: Entry) => if e.keys == keys then Field(e.row, f) else 0.0
  }

  function RawAmount(keys: seq<int>, f: nat): RawRecord -> real {
    ItemAmount(RawReading(), keys, f)
  }

  lemma SumsConserve(groups: seq<seq<RawRecord>>, rs: seq<RawRecord>, w: int, keys: seq<int>, f: nat)
    requires w > 0 && IsGrouping(groups, rs, StartBucket(w))
    ensures SeqSum(SumEntries(groups), EntryAmount(keys, f)) == SeqSum(rs, RawAmount(keys, f))
  {
    SeqSumMapped(groups, SumEntries(groups), GroupAmount(RawReading(), keys, f), EntryAmount(keys, f));
    GroupingConserves(groups, rs, StartBucket(w), RawReading(), keys, f);
  }

  /** A query returns the totals of the records it selects, grouped or not. */
  lemma QueryConserves(cfg: seq<Granularity>, now: int, raw: seq<RawRecord>, q: Query, entries: seq<Entry>,
                       keys: seq<int>, f: nat)
    requires Usable(cfg) && Returns(cfg, now, raw, q, entries)
    ensures SeqSum(entries, EntryAmount(keys, f)) == SeqSum(Selection(cfg, now, q, raw), RawAmount(keys, f))
  {
    var rs := Selection(cfg, now, q, raw);
    if q.Grouped? && q.range < |cfg| {
      var w := cfg[q.range].width;
      var groups :| IsGrouping(groups, rs, StartBucket(w)) && entries == SumEntries(groups);
      SumsConserve(groups, rs, w, keys, f);
    } else {
      SeqSumMapped(rs, entries, RawAmount(keys, f), EntryAmount(keys, f));
    }
  }

  ghost function SelectionSum(cfg: seq<Granularity>, now: int, raw: seq<RawRecord>, v: RawRecord -> real): Query -> real
    requires Usable(cfg)
  {
    (q: Query) => SeqSum(Selection(cfg, now, q, raw), v)
  }

  function IfSelected(cfg: seq<Granularity>, now: int, r: RawRecord, amount: real): Query -> real
    requires Usable(cfg)
  {
    (q: Query) => if Selects(cfg, now, q, r) then amount else 0.0
  }

  lemma {:induction false} CountedByMatches(cfg: seq<Granularity>, now: int, qs: seq<Query>, r: RawRecord, amount: real)
    requires Usable(cfg)
    ensures SeqSum(qs, IfSelected(cfg, now, r, amount)) == Portion(amount, Matches(cfg, now, qs, r) as real)
    decreases |qs|
  {
    if qs != [] {
      CountedByMatches(cfg, now, qs[1..], r, amount);
      PortionOneMore(amount, Matches(cfg, now, qs[1..], r) as real);
    }
  }

  /** What a record is worth, as often as the queries return it. */
  ghost function Matched(cfg: seq<Granularity>, now: int, qs: seq<Query>, v: RawRecord -> real): RawRecord -> real
    requires Usable(cfg)
  {
    (r: RawRecord) => Portion(v(r), Matches(cfg, now, qs, r) as real)
  }

  /** The selections sum up to the table, each record as often as it is selected. */
  lemma {:induction false} SelectionsCover(cfg: seq<Granularity>, now: int, qs: seq<Query>, raw: seq<RawRecord>,
                                           v: RawRecord -> real)
    requires Usable(cfg)
    ensures SeqSum(qs, SelectionSum(cfg, now, raw, v)) == SeqSum(raw, Matched(cfg, now, qs, v))
    decreases |raw|
  {
    if raw == [] {
      SeqSumOfZero(qs, SelectionSum(cfg, now, raw, v));
    } else {
      var r, rest := raw[0], raw[1..];
      SelectionsCover(cfg, now, qs, rest, v);
      CountedByMatches(cfg, now, qs, r, v(r));
      forall q | q in qs
        ensures SelectionSum(cfg, now, raw, v)(q) == IfSelected(cfg, now, r, v(r))(q)
          + SelectionSum(cfg, now, rest, v)(q)
      {
        if Selects(cfg, now, q, r) {
          assert Selection(cfg, now, q, raw)[1..] == Selection(cfg, now, q, rest);
        } else {
          assert Selection(cfg, now, q, raw) == Selection(cfg, now, q, rest);
        }
      }
      SeqSumPlus(qs, IfSelected(cfg, now, r, v(r)), SelectionSum(cfg, now, rest, v), SelectionSum(cfg, now, raw, v));
    }
  }

  ghost function BatchSum(keys: seq<int>, f: nat): seq<Entry> -> real {
    (b: seq<Entry>) => SeqSum(b, EntryAmount(keys, f))
  }

  lemma BatchesConserve(cfg: seq<Granularity>, now: int, raw: seq<RawRecord>, batches: seq<seq<Entry>>,
                        keys: seq<int>, f: nat)
    requires Usable(cfg) && AllReturn(cfg, now, raw, Queries(cfg, 0), batches)
    ensures SeqSum(Flatten(batches), EntryAmount(keys, f))
         == SeqSum(raw, Matched(cfg, now, Queries(cfg, 0), RawAmount(keys, f)))
  {
    var qs := Queries(cfg, 0);
    ReturnsAt(cfg, now, raw, qs, batches);
    SelectionsCover(cfg, now, qs, raw, RawAmount(keys, f));
    forall i | 0 <= i < |qs|
      ensures SelectionSum(cfg, now, raw, RawAmount(keys, f))(qs[i]) == BatchSum(keys, f)(batches[i])
    {
      QueryConserves(cfg, now, raw, qs[i], batches[i], keys, f);
    }
    SeqSumMapped(qs, batches, SelectionSum(cfg, now, raw, RawAmount(keys, f)), BatchSum(keys, f));
    SeqSumFlatten(batches, EntryAmount(keys, f), BatchSum(keys, f));
  }

  lemma {:induction false} SelectionIs(cfg: seq<Granularity>, now: int, q: Query, raw: seq<RawRecord>)
    requires Usable(cfg)
    ensures forall r :: r in Selection(cfg, now, q, raw) <==> r in raw && Selects(cfg, now, q, r)
    decreases |raw|
  {
    if raw != [] { SelectionIs(cfg, now, q, raw[1..]); }
  }

  lemma SumsAreForward<L>(groups: seq<seq<RawRecord>>, rs: seq<RawRecord>, tag: RawRecord -> L)
    requires IsGrouping(groups, rs, tag) && forall r :: r in rs ==> r.start <= r.end
    ensures forall e :: e in SumEntries(groups) ==> e.start <= e.end
  {
    forall i | 0 <= i < |groups| ensures SumEntries(groups)[i].start <= SumEntries(groups)[i].end {
      forall r: RawRecord | r in groups[i] ensures r.start <= r.end {
        GroupedItem(groups, rs, tag, groups[i], r);
      }
      GroupIsForward(groups[i], RawReading());
    }
  }

  lemma QueryIsForward(cfg: seq<Granularity>, now: int, raw: seq<RawRecord>, q: Query, entries: seq<Entry>)
    requires Usable(cfg) && Returns(cfg, now, raw, q, entries)
    requires forall r :: r in raw ==> r.start <= r.end
    ensures forall e :: e in entries ==> e.start <= e.end
  {
    var rs := Selection(cfg, now, q, raw);
    SelectionIs(cfg, now, q, raw);
    if q.Grouped? && q.range < |cfg| {
      var tag := StartBucket(cfg[q.range].width);
      var groups :| IsGrouping(groups, rs, tag) && entries == SumEntries(groups);
      SumsAreForward(groups, rs, tag);
    }
  }

  lemma {:induction false} InBatches(batches: seq<seq<Entry>>, e: Entry)
    requires e in Flatten(batches)
    ensures exists i :: 0 <= i < |batches| && e in batches[i]
    decreases |batches|
  {
    if e in batches[0] {
    } else {
      InBatches(batches[1..], e);
      var i :| 0 <= i < |batches[1..]| && e in batches[1..][i];
      assert e in batches[i + 1];
    }
  }

  /** What rebuilding makes of any raw table: for every choice of key fields the rows rebuilt, and the returned
      entries that get no bucket, sum up to the raw records, each as often as it is returned. */
  lemma RebuiltExactly(cfg: seq<Granularity>, now: int, raw: seq<RawRecord>, batches: seq<seq<Entry>>, nows: seq<int>,
                       t: Table, keys: seq<int>, f: nat)
    requires Usable(cfg) && Progress(cfg, now, raw, Queries(cfg, 0), batches, nows, t)
    ensures Total(t, WithKeys(keys), f)
          + SeqSum(TimedEntries(Flatten(batches), nows), LostAmount(SplitBy(cfg), OfKeys(keys), f))
         == SeqSum(raw, Matched(cfg, now, Queries(cfg, 0), RawAmount(keys, f)))
  {
    var entries, split := Flatten(batches), SplitBy(cfg);
    var xs := TimedEntries(entries, nows);
    ProgramSharesAll(cfg, xs);
    SpreadingAdds(split, map[], xs, WithKeys(keys), OfKeys(keys), f);
    SeqSumPlus(xs, LandedAmount(split, OfKeys(keys), f), LostAmount(split, OfKeys(keys), f), Amount(OfKeys(keys), f));
    SeqSumMapped(entries, xs, EntryAmount(keys, f), Amount(OfKeys(keys), f));
    BatchesConserve(cfg, now, raw, batches, keys, f);
  }

  /** So rebuilding restores the raw totals of every table without records that run backwards: field by field and
      in number of entries, however the clock moves while they are split. */
  lemma RebuiltTotals(cfg: seq<Granularity>, now: int, raw: seq<RawRecord>, batches: seq<seq<Entry>>, nows: seq<int>,
                      t: Table, keys: seq<int>, f: nat)
    requires Widening(cfg) && Progress(cfg, now, raw, Queries(cfg, 0), batches, nows, t)
    requires forall r :: r in raw ==> r.start <= r.end
    ensures Total(t, WithKeys(keys), f) == SeqSum(raw, RawAmount(keys, f))
  {
    var xs := TimedEntries(Flatten(batches), nows);
    RebuiltExactly(cfg, now, raw, batches, nows, t, keys, f);
    ReturnsAt(cfg, now, raw, Queries(cfg, 0), batches);
    forall x | x in xs ensures LostAmount(SplitBy(cfg), OfKeys(keys), f)(x) == 0.0 {
      InBatches(batches, x.entry);
      var i :| 0 <= i < |batches| && x.entry in batches[i];
      QueryIsForward(cfg, now, raw, Queries(cfg, 0)[i], batches[i]);
      SharesOfRecord(cfg, x.now, x.entry.start, x.entry.end);
    }
    SeqSumOfZero(xs, LostAmount(SplitBy(cfg), OfKeys(keys), f));
    forall r | r in raw ensures Matched(cfg, now, Queries(cfg, 0), RawAmount(keys, f))(r) == RawAmount(keys, f)(r) {
      QueriesPartition(cfg, now, r);
    }
    SeqSumCongruent(raw, Matched(cfg, now, Queries(cfg, 0), RawAmount(keys, f)), RawAmount(keys, f));
  }

  // The newest range, where grouping changes nothing as long as each record goes where its group goes.

  /** The first range ends with the first width's span; with one width it has no end, and that width then has to fit
      the largest bucket. */
  ghost predicate HasNewest(cfg: seq<Granularity>) {
    Widening(cfg) && cfg != [] && (|cfg| > 1 || Divides(cfg[0].width, MAX_BUCKET_TIME))
  }

  predicate IsNewest(cfg: seq<Granularity>, now: int, start: int)
    requires cfg != []
  {
    |cfg| > 1 ==> start > now - cfg[0].span
  }

  /** The first moment of the bucket of width `width` for a record in the narrow bucket from `first` on. */
  function FirstOf(cfg: seq<Granularity>, first: int, width: int): int
    requires cfg != [] && width > 0
  {
    if width == cfg[0].width then first else Floor(first, MAX_BUCKET_TIME)
  }

  lemma NewestWidth(cfg: seq<Granularity>, now: int, start: int)
    requires HasNewest(cfg) && IsNewest(cfg, now, start)
    ensures var width := LengthForTime(cfg, now, start);
      width == cfg[0].width || (|cfg| == 1 && width == MAX_BUCKET_TIME)
  {
    if |cfg| > 1 { assert Covers(cfg[0], now, start); }
  }

  lemma WideBucket(start: int, end: int, w: int, width: int)
    requires w > 0 && (width == w || (width == MAX_BUCKET_TIME && Divides(w, MAX_BUCKET_TIME)))
    requires Floor(start, w) == Floor(end, w)
    ensures Floor(start, width) == Floor(end, width)
    ensures Floor(start, width) == if width == w then Floor(start, w) else Floor(Floor(start, w), MAX_BUCKET_TIME)
    ensures Floor(start, width) <= Floor(start, w)
  {
    if width != w {
      FloorNested(start, w, MAX_BUCKET_TIME);
      FloorNested(end, w, MAX_BUCKET_TIME);
      FloorOfMultiple(start, w, MAX_BUCKET_TIME);
    }
  }

  /** A record of the newest range whose times lie in one narrow bucket is put whole in one bucket, or nowhere. */
  lemma NewestInOneBucket(cfg: seq<Granularity>, now: int, start: int, end: int)
    requires HasNewest(cfg) && IsNewest(cfg, now, start) && Floor(start, cfg[0].width) == Floor(end, cfg[0].width)
    ensures var width := LengthForTime(cfg, now, start);
      var first := FirstOf(cfg, Floor(start, cfg[0].width), width);
      && first == Floor(start, width) <= Floor(start, cfg[0].width)
      && (Lands(cfg, now, start, end) <==> start <= end || first < end)
      && BucketsOf(cfg, now, start, end) == if Lands(cfg, now, start, end) then [Bucket(first, 1.0, width)] else []
  {
    var width := LengthForTime(cfg, now, start);
    NewestWidth(cfg, now, start);
    WideBucket(start, end, cfg[0].width, width);
    if start <= end {
      SingleBucket(cfg, now, start, end);
    } else {
      ReversedRecord(cfg, now, start, end);
    }
  }

  ghost predicate NewestGroup(cfg: seq<Granularity>, now: int, g: seq<RawRecord>)
    requires HasNewest(cfg)
  {
    g != [] && forall r :: r in g ==>
      && IsNewest(cfg, now, r.start)
      && r.keys == g[0].keys
      && Floor(r.start, cfg[0].width) == Floor(r.end, cfg[0].width) == Floor(g[0].start, cfg[0].width)
  }

  predicate RecordLands(cfg: seq<Granularity>, now: int, r: RawRecord)
    requires Usable(cfg)
  {
    Lands(cfg, now, r.start, r.end)
  }

  function Width(cfg: seq<Granularity>, now: int, r: RawRecord): int
    requires Usable(cfg)
  {
    LengthForTime(cfg, now, r.start)
  }

  /** Every record of the group would get the buckets that the group gets. */
  predicate Alike(cfg: seq<Granularity>, now: int, g: seq<RawRecord>)
    requires Usable(cfg) && g != []
  {
    var e := GroupEntry(g, RawReading());
    forall r :: r in g ==> BucketsOf(cfg, now, r.start, r.end) == BucketsOf(cfg, now, e.start, e.end)
  }

  function RawContribution(split: Splitter, now: int, at: BucketKey, f: nat): RawRecord -> real {
    (r: RawRecord) => Contribution(split, Timed(RawEntry(r), now), at, f)
  }

  lemma PartOfWhole(b: Bucket, keys: seq<int>, v: real, at: BucketKey)
    requires b.proportion == 1.0
    ensures PartAt([b], keys, v, at) == if at == BucketKey(b.start, b.width, keys) then v else 0.0
  {}

  /** The time span of a group of the newest range lies in the narrow bucket of its records. */
  lemma GroupInBucket(cfg: seq<Granularity>, now: int, g: seq<RawRecord>)
    requires HasNewest(cfg) && NewestGroup(cfg, now, g)
    ensures var e, w := GroupEntry(g, RawReading()), cfg[0].width;
      && Floor(e.start, w) == Floor(e.end, w) == Floor(g[0].start, w) && IsNewest(cfg, now, e.start)
      && e.keys == g[0].keys
  {}

  lemma RecordInBucket(cfg: seq<Granularity>, now: int, g: seq<RawRecord>, r: RawRecord)
    requires HasNewest(cfg) && NewestGroup(cfg, now, g) && r in g
    ensures var first := FirstOf(cfg, Floor(g[0].start, cfg[0].width), Width(cfg, now, r));
      && first <= Floor(g[0].start, cfg[0].width)
      && (RecordLands(cfg, now, r) <==> r.start <= r.end || first < r.end)
      && BucketsOf(cfg, now, r.start, r.end)
         == if RecordLands(cfg, now, r) then [Bucket(first, 1.0, Width(cfg, now, r))] else []
    ensures Width(cfg, now, r) == cfg[0].width || Width(cfg, now, r) == MAX_BUCKET_TIME
    ensures Floor(g[0].start, cfg[0].width) <= r.start && Floor(g[0].start, cfg[0].width) <= r.end
    ensures var e := GroupEntry(g, RawReading()); e.start <= r.start && r.end <= e.end
    ensures Width(cfg, now, r) <= LengthForTime(cfg, now, GroupEntry(g, RawReading()).start)
  {
    NewestInOneBucket(cfg, now, r.start, r.end);
    NewestWidth(cfg, now, r.start);
    LengthShrinksWithTime(cfg, now, GroupEntry(g, RawReading()).start, r.start);
  }

  function EntryLands(cfg: seq<Granularity>, now: int, g: seq<RawRecord>): bool
    requires Usable(cfg) && g != []
  {
    var e := GroupEntry(g, RawReading()); Lands(cfg, now, e.start, e.end)
  }

  function EntryWidth(cfg: seq<Granularity>, now: int, g: seq<RawRecord>): int
    requires Usable(cfg) && g != []
  {
    LengthForTime(cfg, now, GroupEntry(g, RawReading()).start)
  }

  lemma EntryInBucket(cfg: seq<Granularity>, now: int, g: seq<RawRecord>)
    requires HasNewest(cfg) && NewestGroup(cfg, now, g)
    ensures var e := GroupEntry(g, RawReading());
      var first := FirstOf(cfg, Floor(g[0].start, cfg[0].width), EntryWidth(cfg, now, g));
      && first <= Floor(g[0].start, cfg[0].width)
      && (EntryLands(cfg, now, g) <==> e.start <= e.end || first < e.end)
      && BucketsOf(cfg, now, e.start, e.end)
         == if EntryLands(cfg, now, g) then [Bucket(first, 1.0, EntryWidth(cfg, now, g))] else []
    ensures EntryWidth(cfg, now, g) == cfg[0].width || EntryWidth(cfg, now, g) == MAX_BUCKET_TIME
  {
    var e := GroupEntry(g, RawReading());
    GroupInBucket(cfg, now, g);
    NewestInOneBucket(cfg, now, e.start, e.end);
    NewestWidth(cfg, now, e.start);
  }

  /** A group gets a bucket exactly when one of its records would. */
  lemma GroupLands(cfg: seq<Granularity>, now: int, g: seq<RawRecord>)
    requires HasNewest(cfg) && NewestGroup(cfg, now, g)
    ensures EntryLands(cfg, now, g) <==> exists r :: r in g && RecordLands(cfg, now, r)
  {
    var e := GroupEntry(g, RawReading());
    EntryInBucket(cfg, now, g);
    var first :| first in g && first.start == e.start;
    var last :| last in g && last.end == e.end;
    RecordInBucket(cfg, now, g, first);
    RecordInBucket(cfg, now, g, last);
    if EntryLands(cfg, now, g) {
      assert RecordLands(cfg, now, first) || RecordLands(cfg, now, last);
    } else {
      forall r | r in g ensures !RecordLands(cfg, now, r) { RecordInBucket(cfg, now, g, r); }
    }
  }

  function PlaceOf(cfg: seq<Granularity>, g: seq<RawRecord>, width: int): BucketKey
    requires cfg != [] && cfg[0].width > 0 && g != [] && width > 0
  {
    BucketKey(FirstOf(cfg, Floor(g[0].start, cfg[0].width), width), width, g[0].keys)
  }

  /** A group of the newest range brings the sum of its records to one bucket, or nothing. */
  lemma GroupBrings(cfg: seq<Granularity>, now: int, g: seq<RawRecord>, at: BucketKey, f: nat)
    requires HasNewest(cfg) && NewestGroup(cfg, now, g)
    ensures GroupContribution(SplitBy(cfg), now, at, f)(g)
         == if EntryLands(cfg, now, g) && at == PlaceOf(cfg, g, EntryWidth(cfg, now, g))
            then SeqSum(g, FieldOf(RawReading().row, f)) else 0.0
  {
    var e, width := GroupEntry(g, RawReading()), EntryWidth(cfg, now, g);
    GroupInBucket(cfg, now, g);
    EntryInBucket(cfg, now, g);
    PartOfWhole(Bucket(FirstOf(cfg, Floor(g[0].start, cfg[0].width), width), 1.0, width), e.keys, Field(e.row, f), at);
    FieldOfSumRows(g, RawReading().row, f);
  }

  lemma RecordBrings(cfg: seq<Granularity>, now: int, g: seq<RawRecord>, r: RawRecord, at: BucketKey, f: nat)
    requires HasNewest(cfg) && NewestGroup(cfg, now, g) && r in g
    ensures RawContribution(SplitBy(cfg), now, at, f)(r)
         == if RecordLands(cfg, now, r) && at == PlaceOf(cfg, g, Width(cfg, now, r))
            then FieldOf(RawReading().row, f)(r) else 0.0
  {
    var width := Width(cfg, now, r);
    RecordInBucket(cfg, now, g, r);
    PartOfWhole(Bucket(FirstOf(cfg, Floor(g[0].start, cfg[0].width), width), 1.0, width), r.keys,
                Field(r.values + [1.0], f), at);
  }

  function GroupContribution(split: Splitter, now: int, at: BucketKey, f: nat): seq<RawRecord> -> real {
    (g: seq<RawRecord>) => if g == [] then 0.0 else Contribution(split, Timed(GroupEntry(g, RawReading()), now), at, f)
  }

  ghost function RecordsContribution(split: Splitter, now: int, at: BucketKey, f: nat): seq<RawRecord> -> real {
    (g: seq<RawRecord>) => SeqSum(g, RawContribution(split, now, at, f))
  }

  /** A group whose records are alike brings to each bucket what they would have brought. */
  lemma AlikeGroup(cfg: seq<Granularity>, now: int, g: seq<RawRecord>, at: BucketKey, f: nat)
    requires HasNewest(cfg) && NewestGroup(cfg, now, g) && Alike(cfg, now, g)
    ensures GroupContribution(SplitBy(cfg), now, at, f)(g) == RecordsContribution(SplitBy(cfg), now, at, f)(g)
  {
    var hit := EntryLands(cfg, now, g) && at == PlaceOf(cfg, g, EntryWidth(cfg, now, g));
    GroupBrings(cfg, now, g, at, f);
    EntryInBucket(cfg, now, g);
    forall r | r in g
      ensures RawContribution(SplitBy(cfg), now, at, f)(r) == if hit then FieldOf(RawReading().row, f)(r) else 0.0
    {
      RecordInBucket(cfg, now, g, r);
      RecordBrings(cfg, now, g, r, at, f);
    }
    if hit {
      SeqSumCongruent(g, FieldOf(RawReading().row, f), RawContribution(SplitBy(cfg), now, at, f));
    } else {
      SeqSumOfZero(g, RawContribution(SplitBy(cfg), now, at, f));
    }
  }

  /** A record of `n` values counts as one entry in field `n`. */
  lemma CountsOne(r: RawRecord, n: nat)
    requires |r.values| == n
    ensures FieldOf(RawReading().row, n)(r) == 1.0
  {
    assert Field(r.values + [1.0], n) == 1.0;
  }

  /** Where the group is put, its records bring no more entries than it does, and fewer if one of them goes
      elsewhere. */
  lemma AtItsPlace(cfg: seq<Granularity>, now: int, g: seq<RawRecord>, n: nat, other: RawRecord)
    requires HasNewest(cfg) && NewestGroup(cfg, now, g) && (forall r :: r in g ==> |r.values| == n) && other in g
    requires EntryLands(cfg, now, g)
    ensures var at := PlaceOf(cfg, g, EntryWidth(cfg, now, g));
      var u, v := RecordsContribution(SplitBy(cfg), now, at, n), GroupContribution(SplitBy(cfg), now, at, n);
      && u(g) <= v(g)
      && (!RecordLands(cfg, now, other) || Width(cfg, now, other) != EntryWidth(cfg, now, g) ==> u(g) < v(g))
  {
    var at := PlaceOf(cfg, g, EntryWidth(cfg, now, g));
    var u, v := RawContribution(SplitBy(cfg), now, at, n), FieldOf(RawReading().row, n);
    GroupBrings(cfg, now, g, at, n);
    forall r | r in g ensures u(r) <= v(r) {
      RecordBrings(cfg, now, g, r, at, n);
      CountsOne(r, n);
    }
    SeqSumAtMost(g, u, v);
    RecordBrings(cfg, now, g, other, at, n);
    CountsOne(other, n);
    if u(other) < v(other) { SeqSumBelow(g, u, v, other); }
  }

  /** In a bucket that the group does not reach, its records bring none or more entries. */
  lemma Elsewhere(cfg: seq<Granularity>, now: int, g: seq<RawRecord>, at: BucketKey, n: nat)
    requires HasNewest(cfg) && NewestGroup(cfg, now, g) && (forall r :: r in g ==> |r.values| == n)
    requires !(EntryLands(cfg, now, g) && at == PlaceOf(cfg, g, EntryWidth(cfg, now, g)))
    ensures var u, v := RecordsContribution(SplitBy(cfg), now, at, n), GroupContribution(SplitBy(cfg), now, at, n);
      && v(g) == 0.0 <= u(g)
      && (u(g) == 0.0 <==>
            forall r :: r in g ==> !(RecordLands(cfg, now, r) && at == PlaceOf(cfg, g, Width(cfg, now, r))))
  {
    var u, zero := RawContribution(SplitBy(cfg), now, at, n), (r: RawRecord) => 0.0;
    GroupBrings(cfg, now, g, at, n);
    forall r | r in g ensures zero(r) <= u(r) {
      RecordBrings(cfg, now, g, r, at, n);
      CountsOne(r, n);
    }
    SeqSumOfZero(g, zero);
    if r :| r in g && RecordLands(cfg, now, r) && at == PlaceOf(cfg, g, Width(cfg, now, r)) {
      RecordBrings(cfg, now, g, r, at, n);
      CountsOne(r, n);
      SeqSumBelow(g, zero, u, r);
    } else {
      forall r | r in g ensures u(r) == 0.0 { RecordBrings(cfg, now, g, r, at, n); }
      SeqSumOfZero(g, u);
    }
  }

  /** The bucket in which an unlike group differs from its records: the narrow one, in which no other group has a
      share, or else the largest, in which it brings more entries. */
  lemma UnlikeGroup(cfg: seq<Granularity>, now: int, g: seq<RawRecord>, n: nat) returns (at: BucketKey)
    requires HasNewest(cfg) && NewestGroup(cfg, now, g) && !Alike(cfg, now, g)
    requires forall r :: r in g ==> |r.values| == n
    ensures var u, v := RecordsContribution(SplitBy(cfg), now, at, n), GroupContribution(SplitBy(cfg), now, at, n);
      || (at == PlaceOf(cfg, g, cfg[0].width) && u(g) != v(g))
      || (at.width == MAX_BUCKET_TIME != cfg[0].width && u(g) < v(g))
  {
    var narrow := PlaceOf(cfg, g, cfg[0].width);
    EntryInBucket(cfg, now, g);
    GroupLands(cfg, now, g);
    var other := Unlike(cfg, now, g);
    RecordInBucket(cfg, now, g, other);
    if EntryWidth(cfg, now, g) == cfg[0].width {
      at := narrow;
      AtItsPlace(cfg, now, g, n, other);
    } else if exists r :: r in g && RecordLands(cfg, now, r) && Width(cfg, now, r) == cfg[0].width {
      at := narrow;
      Elsewhere(cfg, now, g, at, n);
    } else {
      at := PlaceOf(cfg, g, MAX_BUCKET_TIME);
      AtItsPlace(cfg, now, g, n, other);
    }
  }

  /** The group lands and some record does not land with it. */
  lemma Unlike(cfg: seq<Granularity>, now: int, g: seq<RawRecord>) returns (other: RawRecord)
    requires HasNewest(cfg) && NewestGroup(cfg, now, g) && !Alike(cfg, now, g)
    ensures EntryLands(cfg, now, g) && other in g
    ensures !RecordLands(cfg, now, other) || Width(cfg, now, other) != EntryWidth(cfg, now, g)
  {
    var e := GroupEntry(g, RawReading());
    EntryInBucket(cfg, now, g);
    GroupLands(cfg, now, g);
    other :| other in g && BucketsOf(cfg, now, other.start, other.end) != BucketsOf(cfg, now, e.start, e.end);
    RecordInBucket(cfg, now, g, other);
  }

  /** No group brings less to a largest bucket than its records. */
  lemma NeverLess(cfg: seq<Granularity>, now: int, g: seq<RawRecord>, at: BucketKey, n: nat)
    requires HasNewest(cfg) && NewestGroup(cfg, now, g) && (forall r :: r in g ==> |r.values| == n)
    requires at.width == MAX_BUCKET_TIME != cfg[0].width
    ensures RecordsContribution(SplitBy(cfg), now, at, n)(g) <= GroupContribution(SplitBy(cfg), now, at, n)(g)
  {
    EntryInBucket(cfg, now, g);
    GroupLands(cfg, now, g);
    if EntryLands(cfg, now, g) && at == PlaceOf(cfg, g, EntryWidth(cfg, now, g)) {
      AtItsPlace(cfg, now, g, n, g[0]);
    } else {
      forall r | r in g ensures !(RecordLands(cfg, now, r) && at == PlaceOf(cfg, g, Width(cfg, now, r))) {
        RecordInBucket(cfg, now, g, r);
      }
      Elsewhere(cfg, now, g, at, n);
    }
  }

  /** Groups of different labels share no narrow bucket. */
  lemma NarrowIsOwn(cfg: seq<Granularity>, now: int, g: seq<RawRecord>, h: seq<RawRecord>, n: nat)
    requires HasNewest(cfg) && NewestGroup(cfg, now, g) && NewestGroup(cfg, now, h)
    requires StartBucket(cfg[0].width)(g[0]) != StartBucket(cfg[0].width)(h[0])
    requires forall r :: r in h ==> |r.values| == n
    ensures var at := PlaceOf(cfg, g, cfg[0].width);
      RecordsContribution(SplitBy(cfg), now, at, n)(h) == GroupContribution(SplitBy(cfg), now, at, n)(h)
  {
    var at := PlaceOf(cfg, g, cfg[0].width);
    assert at != PlaceOf(cfg, h, cfg[0].width);
    EntryInBucket(cfg, now, h);
    forall r | r in h ensures at != PlaceOf(cfg, h, Width(cfg, now, r)) { RecordInBucket(cfg, now, h, r); }
    Elsewhere(cfg, now, h, at, n);
  }

  function AllAt(entries: seq<Entry>, now: int): seq<Timed> {
    seq(|entries|, i requires 0 <= i < |entries| => Timed(entries[i], now))
  }

  ghost predicate NewestGrouping(cfg: seq<Granularity>, now: int, raw: seq<RawRecord>, groups: seq<seq<RawRecord>>)
    requires HasNewest(cfg)
  {
    IsGrouping(groups, Selection(cfg, now, Grouped(0), raw), StartBucket(cfg[0].width))
  }

  /** What the grouped query, and its records one by one, bring to a bucket. */
  lemma BothWays(cfg: seq<Granularity>, now: int, raw: seq<RawRecord>, t: Table, groups: seq<seq<RawRecord>>,
                 at: BucketKey, f: nat)
    requires HasNewest(cfg) && NewestGrouping(cfg, now, raw, groups)
    ensures Value(SpreadAll(SplitBy(cfg), t, AllAt(SumEntries(groups), now)), at, f)
         == Value(t, at, f) + SeqSum(groups, GroupContribution(SplitBy(cfg), now, at, f))
    ensures Value(SpreadAll(SplitBy(cfg), t, AllAt(RawEntries(Selection(cfg, now, Grouped(0), raw)), now)), at, f)
         == Value(t, at, f) + SeqSum(groups, RecordsContribution(SplitBy(cfg), now, at, f))
  {
    var split, rs := SplitBy(cfg), Selection(cfg, now, Grouped(0), raw);
    var u, v := RawContribution(split, now, at, f), GroupContribution(split, now, at, f);
    var xs, ys := AllAt(SumEntries(groups), now), AllAt(RawEntries(rs), now);
    SeqSumFlatten(groups, u, RecordsContribution(split, now, at, f));
    SeqSumPermuted(Flatten(groups), rs, u);
    SeqSumMapped(groups, xs, v, ContributionTo(split, at, f));
    SeqSumMapped(rs, ys, u, ContributionTo(split, at, f));
    TableIsSum(split, t, xs, at, f);
    TableIsSum(split, t, ys, at, f);
  }

  lemma NewestGroups(cfg: seq<Granularity>, now: int, raw: seq<RawRecord>, groups: seq<seq<RawRecord>>,
                     g: seq<RawRecord>)
    requires HasNewest(cfg) && NewestGrouping(cfg, now, raw, groups) && g in groups
    ensures NewestGroup(cfg, now, g) && forall r :: r in g ==> r in raw
  {
    var rs, tag := Selection(cfg, now, Grouped(0), raw), StartBucket(cfg[0].width);
    SelectionIs(cfg, now, Grouped(0), raw);
    forall r | r in g ensures r in rs && tag(r) == tag(g[0]) {
      GroupedItem(groups, rs, tag, g, r);
    }
  }

  /** The rows hold the same whether they are loaded with these entries or with the selected records one by one. */
  ghost predicate SplitsAsRaw(cfg: seq<Granularity>, now: int, raw: seq<RawRecord>, t: Table, entries: seq<Entry>)
    requires Usable(cfg)
  {
    forall at: BucketKey, f: nat ::
      Value(SpreadAll(SplitBy(cfg), t, AllAt(entries, now)), at, f)
      == Value(SpreadAll(SplitBy(cfg), t, AllAt(RawEntries(Selection(cfg, now, Grouped(0), raw)), now)), at, f)
  }

  /** Every selected record would get the buckets of the entry with its key fields and its bucket. */
  ghost predicate AllAlike(cfg: seq<Granularity>, now: int, raw: seq<RawRecord>, entries: seq<Entry>)
    requires Usable(cfg) && cfg != []
  {
    forall e, r :: e in entries && r in Selection(cfg, now, Grouped(0), raw) && Joins(cfg[0].width, r, e) ==>
      BucketsOf(cfg, now, r.start, r.end) == BucketsOf(cfg, now, e.start, e.end)
  }

  lemma GroupsReturned(cfg: seq<Granularity>, now: int, raw: seq<RawRecord>, entries: seq<Entry>)
    returns (groups: seq<seq<RawRecord>>)
    requires HasNewest(cfg) && Returns(cfg, now, raw, Grouped(0), entries)
    ensures NewestGrouping(cfg, now, raw, groups) && entries == SumEntries(groups)
  {
    groups :| NewestGrouping(cfg, now, raw, groups) && entries == SumEntries(groups);
  }

  /** In the newest range, at a fixed clock, what the grouped query returns leads to the same bucket rows as splitting
      each of its records on its own, exactly when each record would go where its entry goes. */
  lemma NewestRangeSplitsAsRaw(cfg: seq<Granularity>, now: int, raw: seq<RawRecord>, t: Table, entries: seq<Entry>,
                               n: nat)
    requires HasNewest(cfg) && Returns(cfg, now, raw, Grouped(0), entries)
    requires forall r :: r in raw ==> |r.values| == n
    ensures SplitsAsRaw(cfg, now, raw, t, entries) <==> AllAlike(cfg, now, raw, entries)
  {
    var groups := GroupsReturned(cfg, now, raw, entries);
    AlikeByGroup(cfg, now, raw, groups);
    if forall g :: g in groups ==> Alike(cfg, now, g) {
      AlikeSplitsAsRaw(cfg, now, raw, t, groups);
    } else {
      var g :| g in groups && !Alike(cfg, now, g);
      UnlikeSplitsOtherwise(cfg, now, raw, t, groups, n, g);
    }
  }

  lemma AlikeByGroup(cfg: seq<Granularity>, now: int, raw: seq<RawRecord>, groups: seq<seq<RawRecord>>)
    requires HasNewest(cfg) && NewestGrouping(cfg, now, raw, groups)
    ensures AllAlike(cfg, now, raw, SumEntries(groups)) <==> forall g :: g in groups ==> Alike(cfg, now, g)
  {
    if AllAlike(cfg, now, raw, SumEntries(groups)) {
      forall i | 0 <= i < |groups| ensures Alike(cfg, now, groups[i]) { GroupIsAlike(cfg, now, raw, groups, i); }
    }
    if forall g :: g in groups ==> Alike(cfg, now, g) { RecordsAreAlike(cfg, now, raw, groups); }
  }

  lemma GroupIsAlike(cfg: seq<Granularity>, now: int, raw: seq<RawRecord>, groups: seq<seq<RawRecord>>, i: nat)
    requires HasNewest(cfg) && NewestGrouping(cfg, now, raw, groups) && i < |groups|
    requires AllAlike(cfg, now, raw, SumEntries(groups))
    ensures groups[i] != [] && Alike(cfg, now, groups[i])
  {
    var rs, e := Selection(cfg, now, Grouped(0), raw), SumEntries(groups)[i];
    forall r | r in groups[i] ensures BucketsOf(cfg, now, r.start, r.end) == BucketsOf(cfg, now, e.start, e.end) {
      GroupedItem(groups, rs, StartBucket(cfg[0].width), groups[i], r);
      MembersJoin(groups, rs, cfg[0].width, i, r);
    }
  }

  lemma RecordsAreAlike(cfg: seq<Granularity>, now: int, raw: seq<RawRecord>, groups: seq<seq<RawRecord>>)
    requires HasNewest(cfg) && NewestGrouping(cfg, now, raw, groups)
    requires forall g :: g in groups ==> Alike(cfg, now, g)
    ensures AllAlike(cfg, now, raw, SumEntries(groups))
  {
    var rs, entries := Selection(cfg, now, Grouped(0), raw), SumEntries(groups);
    forall e, r | e in entries && r in rs && Joins(cfg[0].width, r, e)
      ensures BucketsOf(cfg, now, r.start, r.end) == BucketsOf(cfg, now, e.start, e.end)
    {
      var i :| 0 <= i < |groups| && entries[i] == e;
      MembersJoin(groups, rs, cfg[0].width, i, r);
      assert Alike(cfg, now, groups[i]);
    }
  }

  lemma AlikeSplitsAsRaw(cfg: seq<Granularity>, now: int, raw: seq<RawRecord>, t: Table, groups: seq<seq<RawRecord>>)
    requires HasNewest(cfg) && NewestGrouping(cfg, now, raw, groups)
    requires forall g :: g in groups ==> Alike(cfg, now, g)
    ensures SplitsAsRaw(cfg, now, raw, t, SumEntries(groups))
  {
    forall at: BucketKey, f: nat
      ensures Value(SpreadAll(SplitBy(cfg), t, AllAt(SumEntries(groups), now)), at, f)
           == Value(SpreadAll(SplitBy(cfg), t, AllAt(RawEntries(Selection(cfg, now, Grouped(0), raw)), now)), at, f)
    {
      AlikeSums(cfg, now, raw, groups, at, f);
      BothWays(cfg, now, raw, t, groups, at, f);
    }
  }

  lemma AlikeSums(cfg: seq<Granularity>, now: int, raw: seq<RawRecord>, groups: seq<seq<RawRecord>>, at: BucketKey,
                  f: nat)
    requires HasNewest(cfg) && NewestGrouping(cfg, now, raw, groups)
    requires forall g :: g in groups ==> Alike(cfg, now, g)
    ensures SeqSum(groups, RecordsContribution(SplitBy(cfg), now, at, f))
         == SeqSum(groups, GroupContribution(SplitBy(cfg), now, at, f))
  {
    var u, v := RecordsContribution(SplitBy(cfg), now, at, f), GroupContribution(SplitBy(cfg), now, at, f);
    forall g | g in groups ensures u(g) == v(g) {
      NewestGroups(cfg, now, raw, groups, g);
      AlikeGroup(cfg, now, g, at, f);
    }
    SeqSumCongruent(groups, u, v);
  }

  lemma DifferentSums(cfg: seq<Granularity>, now: int, raw: seq<RawRecord>, t: Table,
                      groups: seq<seq<RawRecord>>, at: BucketKey, f: nat)
    requires HasNewest(cfg) && NewestGrouping(cfg, now, raw, groups)
    requires SeqSum(groups, RecordsContribution(SplitBy(cfg), now, at, f))
      != SeqSum(groups, GroupContribution(SplitBy(cfg), now, at, f))
    ensures !SplitsAsRaw(cfg, now, raw, t, SumEntries(groups))
  {
    BothWays(cfg, now, raw, t, groups, at, f);
  }

  lemma NarrowSumsDiffer(cfg: seq<Granularity>, now: int, raw: seq<RawRecord>, groups: seq<seq<RawRecord>>, n: nat,
                         g: seq<RawRecord>)
    requires HasNewest(cfg) && NewestGrouping(cfg, now, raw, groups) && g in groups && g != []
    requires forall r :: r in raw ==> |r.values| == n
    requires var at := PlaceOf(cfg, g, cfg[0].width);
      RecordsContribution(SplitBy(cfg), now, at, n)(g) != GroupContribution(SplitBy(cfg), now, at, n)(g)
    ensures var at := PlaceOf(cfg, g, cfg[0].width);
      SeqSum(groups, RecordsContribution(SplitBy(cfg), now, at, n))
      != SeqSum(groups, GroupContribution(SplitBy(cfg), now, at, n))
  {
    var at := PlaceOf(cfg, g, cfg[0].width);
    var u, v := RecordsContribution(SplitBy(cfg), now, at, n), GroupContribution(SplitBy(cfg), now, at, n);
    forall h | h in groups ensures h == g || u(h) == v(h) {
      if h != g { OtherGroup(cfg, now, raw, groups, n, g, h); }
    }
    SeqSumOneDiffers(groups, u, v, g);
  }

  lemma OtherGroup(cfg: seq<Granularity>, now: int, raw: seq<RawRecord>, groups: seq<seq<RawRecord>>, n: nat,
                   g: seq<RawRecord>, h: seq<RawRecord>)
    requires HasNewest(cfg) && NewestGrouping(cfg, now, raw, groups) && g in groups && h in groups && h != g && g != []
    requires forall r :: r in raw ==> |r.values| == n
    ensures var at := PlaceOf(cfg, g, cfg[0].width);
      RecordsContribution(SplitBy(cfg), now, at, n)(h) == GroupContribution(SplitBy(cfg), now, at, n)(h)
  {
    NewestGroups(cfg, now, raw, groups, g);
    NewestGroups(cfg, now, raw, groups, h);
    DifferentLabels(groups, Selection(cfg, now, Grouped(0), raw), StartBucket(cfg[0].width), g, h);
    NarrowIsOwn(cfg, now, g, h, n);
  }

  lemma WideSumsDiffer(cfg: seq<Granularity>, now: int, raw: seq<RawRecord>, groups: seq<seq<RawRecord>>, n: nat,
                       g: seq<RawRecord>, at: BucketKey)
    requires HasNewest(cfg) && NewestGrouping(cfg, now, raw, groups) && g in groups
    requires (forall r :: r in raw ==> |r.values| == n) && at.width == MAX_BUCKET_TIME != cfg[0].width
    requires RecordsContribution(SplitBy(cfg), now, at, n)(g) < GroupContribution(SplitBy(cfg), now, at, n)(g)
    ensures SeqSum(groups, RecordsContribution(SplitBy(cfg), now, at, n))
      != SeqSum(groups, GroupContribution(SplitBy(cfg), now, at, n))
  {
    var u, v := RecordsContribution(SplitBy(cfg), now, at, n), GroupContribution(SplitBy(cfg), now, at, n);
    forall h | h in groups ensures u(h) <= v(h) {
      NewestGroups(cfg, now, raw, groups, h);
      NeverLess(cfg, now, h, at, n);
    }
    SeqSumBelow(groups, u, v, g);
  }

  lemma UnlikeSplitsOtherwise(cfg: seq<Granularity>, now: int, raw: seq<RawRecord>, t: Table,
                              groups: seq<seq<RawRecord>>, n: nat, g: seq<RawRecord>)
    requires HasNewest(cfg) && NewestGrouping(cfg, now, raw, groups)
    requires (forall r :: r in raw ==> |r.values| == n) && g in groups && g != [] && !Alike(cfg, now, g)
    ensures !SplitsAsRaw(cfg, now, raw, t, SumEntries(groups))
  {
    NewestGroups(cfg, now, raw, groups, g);
    var at := UnlikeGroup(cfg, now, g, n);
    if RecordsContribution(SplitBy(cfg), now, at, n)(g) < GroupContribution(SplitBy(cfg), now, at, n)(g)
       && at.width == MAX_BUCKET_TIME != cfg[0].width {
      WideSumsDiffer(cfg, now, raw, groups, n, g, at);
    } else {
      NarrowSumsDiffer(cfg, now, raw, groups, n, g);
    }
    DifferentSums(cfg, now, raw, t, groups, at, n);
  }

  lemma DifferentLabels<T, L>(groups: seq<seq<T>>, items: seq<T>, tag: T -> L, g: seq<T>, h: seq<T>)
    requires IsGrouping(groups, items, tag) && g in groups && h in groups && g != h
    ensures g != [] && h != [] && tag(g[0]) != tag(h[0])
  {
    var i :| 0 <= i < |groups| && groups[i] == g;
    var j :| 0 <= j < |groups| && groups[j] == h;
    assert i < j || j < i;
  }

  lemma ForwardAlike(cfg: seq<Granularity>, now: int, g: seq<RawRecord>)
    requires Widening(cfg) && |cfg| > 1 && NewestGroup(cfg, now, g) && forall r :: r in g ==> r.start <= r.end
    ensures Alike(cfg, now, g)
  {
    EntryInBucket(cfg, now, g);
    GroupInBucket(cfg, now, g);
    NewestWidth(cfg, now, GroupEntry(g, RawReading()).start);
    forall r | r in g ensures RecordLands(cfg, now, r) && Width(cfg, now, r) == cfg[0].width {
      RecordInBucket(cfg, now, g, r);
      NewestWidth(cfg, now, r.start);
    }
    GroupLands(cfg, now, g);
    forall r | r in g { RecordInBucket(cfg, now, g, r); }
  }

  /** With several widths records that do not run backwards are always alike. */
  lemma ForwardSplitsAsRaw(cfg: seq<Granularity>, now: int, raw: seq<RawRecord>, t: Table, entries: seq<Entry>,
                           n: nat)
    requires Widening(cfg) && |cfg| > 1 && Returns(cfg, now, raw, Grouped(0), entries)
    requires forall r :: r in raw ==> |r.values| == n && r.start <= r.end
    ensures SplitsAsRaw(cfg, now, raw, t, entries)
  {
    var groups := GroupsReturned(cfg, now, raw, entries);
    forall i | 0 <= i < |groups| ensures groups[i] != [] && Alike(cfg, now, groups[i]) {
      NewestGroups(cfg, now, raw, groups, groups[i]);
      ForwardAlike(cfg, now, groups[i]);
    }
    AlikeSplitsAsRaw(cfg, now, raw, t, groups);
  }

  lemma DifferentWidths(cfg: seq<Granularity>, now: int, g: seq<RawRecord>, early: RawRecord, late: RawRecord)
    requires HasNewest(cfg) && NewestGroup(cfg, now, g) && early in g && late in g
    requires early.start <= early.end && late.start <= late.end && Width(cfg, now, early) != Width(cfg, now, late)
    ensures !Alike(cfg, now, g)
  {
    RecordInBucket(cfg, now, g, early);
    RecordInBucket(cfg, now, g, late);
  }

  /** With one width the range reaches back beyond the width's span, and where two records of one bucket lie on both
      sides of the limit, their entry is put where the older one belongs. */
  lemma LimitInGroup(cfg: seq<Granularity>, now: int, raw: seq<RawRecord>, t: Table, entries: seq<Entry>, n: nat,
                     early: RawRecord, late: RawRecord)
    requires HasNewest(cfg) && Returns(cfg, now, raw, Grouped(0), entries) && forall r :: r in raw ==> |r.values| == n
    requires early in Selection(cfg, now, Grouped(0), raw) && late in Selection(cfg, now, Grouped(0), raw)
    requires early.keys == late.keys && Floor(early.start, cfg[0].width) == Floor(late.start, cfg[0].width)
    requires early.start <= early.end && late.start <= late.end && Width(cfg, now, early) != Width(cfg, now, late)
    ensures !SplitsAsRaw(cfg, now, raw, t, entries)
  {
    var groups := GroupsReturned(cfg, now, raw, entries);
    LimitInGroups(cfg, now, raw, t, groups, n, early, late);
  }

  lemma LimitInGroups(cfg: seq<Granularity>, now: int, raw: seq<RawRecord>, t: Table, groups: seq<seq<RawRecord>>,
                      n: nat, early: RawRecord, late: RawRecord)
    requires HasNewest(cfg) && NewestGrouping(cfg, now, raw, groups) && forall r :: r in raw ==> |r.values| == n
    requires early in Selection(cfg, now, Grouped(0), raw) && late in Selection(cfg, now, Grouped(0), raw)
    requires early.keys == late.keys && Floor(early.start, cfg[0].width) == Floor(late.start, cfg[0].width)
    requires early.start <= early.end && late.start <= late.end && Width(cfg, now, early) != Width(cfg, now, late)
    ensures !SplitsAsRaw(cfg, now, raw, t, SumEntries(groups))
  {
    var i := SharedGroup(groups, Selection(cfg, now, Grouped(0), raw), cfg[0].width, early, late);
    NewestGroups(cfg, now, raw, groups, groups[i]);
    DifferentWidths(cfg, now, groups[i], early, late);
    UnlikeSplitsOtherwise(cfg, now, raw, t, groups, n, groups[i]);
  }

  lemma SharedGroup(groups: seq<seq<RawRecord>>, rs: seq<RawRecord>, w: int, a: RawRecord, b: RawRecord)
    returns (i: nat)
    requires w > 0 && IsGrouping(groups, rs, StartBucket(w)) && a in rs && b in rs
    requires a.keys == b.keys && Floor(a.start, w) == Floor(b.start, w)
    ensures i < |groups| && groups[i] != [] && a in groups[i] && b in groups[i]
  {
    assert a in multiset(Flatten(groups));
    i := GroupOf(groups, a);
    MembersJoin(groups, rs, w, i, a);
    MembersJoin(groups, rs, w, i, b);
  }

  /** Such records: two of no length in the bucket from 90 on, seen from 100 with buckets of 10 for 5 seconds. */
  lemma OneWidthSplitsOtherwise(cfg: seq<Granularity>, a: RawRecord, b: RawRecord, keys: seq<int>, t: Table,
                                entries: seq<Entry>)
    requires cfg == [Granularity(5, 10)] && a == RawRecord(keys, [], 91, 91) && b == RawRecord(keys, [], 96, 96)
    requires Returns(cfg, 100, [a, b], Grouped(0), entries)
    ensures HasNewest(cfg) && !SplitsAsRaw(cfg, 100, [a, b], t, entries)
  {
    TimesDivides(60480, 10);
    OneWidth(cfg, a);
    OneWidth(cfg, b);
    SelectionIs(cfg, 100, Grouped(0), [a, b]);
    LimitInGroup(cfg, 100, [a, b], t, entries, 0, a, b);
  }

  lemma OneWidth(cfg: seq<Granularity>, r: RawRecord)
    requires cfg == [Granularity(5, 10)] && 90 <= r.start <= r.end < 100
    ensures Selects(cfg, 100, Grouped(0), r) && StartBucket(10)(r) == (r.keys, 90)
    ensures Width(cfg, 100, r) == if r.start >= 95 then 10 else MAX_BUCKET_TIME
  {
    TimesDivides(9, 10);
    FloorUnique(90, r.start, 10);
    FloorUnique(90, r.end, 10);
    TimesDivides(10, 10);
    FloorUnique(100, 100, 10);
    FirstCoveringUnique(cfg, 100, r.start, if r.start >= 95 then 0 else 1);
  }
}
