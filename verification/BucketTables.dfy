/** The bucket table of an accounting type: rows keyed by (start time, width, key fields). */
module BucketTables {
  import opened Granularities
  import opened Remainders
  import opened Buckets
  import opened Sums

  /** The unique index of the table. */
  datatype BucketKey = BucketKey(start: int, width: int, keys: seq<int>)

  /** The value fields of a row; the last one is `entriesInBucket`. */
  type Row = seq<real>

  type Table = map<BucketKey, Row>

  /** Values to be spread over the buckets between two times. */
  datatype Entry = Entry(keys: seq<int>, row: Row, start: int, end: int)

  /** An entry and the clock reading at which it is bucketed. */
  datatype Timed = Timed(entry: Entry, now: int)

  function Field(row: Row, f: nat): real {
    if f < |row| then row[f] else 0.0
  }

  function Add(a: Row, b: Row): Row {
    seq(Max(|a|, |b|), i requires i >= 0 => Field(a, i) + Field(b, i))
  }

  function Portion(v: real, p: real): real { v * p }

  function Scale(row: Row, p: real): Row {
    seq(|row|, i requires 0 <= i < |row| => Portion(row[i], p))
  }

  /** What the table says of one field of one bucket, an absent row counting as zero. */
  function Value(t: Table, k: BucketKey, f: nat): real {
    if k in t then Field(t[k], f) else 0.0
  }

  /** INSERT .. ON DUPLICATE KEY UPDATE, adding to the row that is there. */
  function Upsert(t: Table, k: BucketKey, row: Row): Table {
    t[k := if k in t then Add(t[k], row) else row]
  }

  function WriteAll(t: Table, bs: seq<Bucket>, keys: seq<int>, row: Row): Table
    decreases |bs|
  {
    if bs == [] then t
    else
      var k := BucketKey(bs[0].start, bs[0].width, keys);
      WriteAll(Upsert(t, k, Scale(row, bs[0].proportion)), bs[1..], keys, row)
  }

  /** How entries are split: what the table owes to the configuration and the clock. */
  type Splitter = Timed -> seq<Bucket>

  function SplitBy(cfg: seq<Granularity>): Splitter
    requires Usable(cfg)
  {
    (x: Timed) => BucketsOf(cfg, x.now, x.entry.start, x.entry.end)
  }

  /** The table after an entry has been split in its buckets. */
  function Spread(split: Splitter, t: Table, x: Timed): Table {
    WriteAll(t, split(x), x.entry.keys, x.entry.row)
  }

  function SpreadAll(split: Splitter, t: Table, xs: seq<Timed>): Table
    decreases |xs|
  {
    if xs == [] then t else SpreadAll(split, Spread(split, t, xs[0]), xs[1..])
  }

  /** Time as the program reads it: never going back. */
  class Clock {
    var time: int

    method Now() returns (now: int)
      modifies this
      ensures old(time) <= now == time
    {
      var elapsed: nat :| true;
      time := time + elapsed;
      now := time;
    }
  }

  function KeysOf(records: seq<Record>): set<BucketKey> {
    set r | r in records :: r.key
  }

  /** A row as a query returns it. */
  datatype Record = Record(key: BucketKey, row: Row)

  class BucketTable {
    var rows: Table

    /** SELECT .. WHERE startTime < timeLimit AND bucketLength = width LIMIT querySize, in no particular order. */
    method SelectIndividual(timeLimit: int, width: int, querySize: nat) returns (records: seq<Record>)
      ensures forall i, j :: 0 <= i < j < |records| ==> records[i].key != records[j].key
      ensures forall r :: r in records ==>
        r.key in rows && r.row == rows[r.key] && r.key.width == width && r.key.start < timeLimit
      ensures |records| <= querySize
      ensures |records| < querySize ==>
        forall k :: k in rows && k.width == width && k.start < timeLimit ==> Record(k, rows[k]) in records
    {
      records := [];
      var left := set k | k in rows && k.width == width && k.start < timeLimit;
      while left != {} && |records| < querySize
        invariant forall k :: k in left ==> k in rows && k.width == width && k.start < timeLimit
        invariant forall i, j :: 0 <= i < j < |records| ==> records[i].key != records[j].key
        invariant forall r :: r in records ==>
          && r.key in rows && r.row == rows[r.key] && r.key.width == width && r.key.start < timeLimit
          && r.key !in left
        invariant forall k :: k in rows && k.width == width && k.start < timeLimit ==>
          k in left || Record(k, rows[k]) in records
        invariant |records| <= querySize
        decreases left
      {
        var k :| k in left;
        left := left - {k};
        assert forall r :: r in records ==> r.key != k;
        records := records + [Record(k, rows[k])];
      }
    }

    /** Deletes the selected rows, fifty to a statement. */
    method DeleteIndividual(records: seq<Record>)
      modifies this
      ensures rows == old(rows) - KeysOf(records)
    {
      var from := 0;
      while from < |records|
        invariant 0 <= from <= |records|
        invariant rows == old(rows) - KeysOf(records[..from])
      {
        var to := Min(from + 50, |records|);
        rows := rows - KeysOf(records[from..to]);
        assert records[..to] == records[..from] + records[from..to];
        assert KeysOf(records[..to]) == KeysOf(records[..from]) + KeysOf(records[from..to]);
        from := to;
      }
      assert records[..from] == records;
    }

    method WriteBuckets(buckets: seq<Bucket>, keys: seq<int>, row: Row)
      modifies this
      ensures rows == WriteAll(old(rows), buckets, keys, row)
    {
      for i := 0 to |buckets|
        invariant WriteAll(rows, buckets[i..], keys, row) == WriteAll(old(rows), buckets, keys, row)
      {
        var k := BucketKey(buckets[i].start, buckets[i].width, keys);
        var part := Scale(row, buckets[i].proportion);
        rows := rows[k := if k in rows then Add(rows[k], part) else part];
        assert buckets[i..][1..] == buckets[i + 1..];
      }
    }

    method SplitInBuckets(cfg: seq<Granularity>, now: int, entry: Entry)
      requires Usable(cfg)
      modifies this
      ensures rows == Spread(SplitBy(cfg), old(rows), Timed(entry, now))
    {
      var buckets := CalculateBuckets(cfg, now, entry.start, entry.end);
      if buckets == [] {
        return;
      }
      WriteBuckets(buckets, entry.keys, entry.row);
    }
  }

  function TimedEntries(entries: seq<Entry>, nows: seq<int>): seq<Timed>
    requires |entries| == |nows|
  {
    seq(|entries|, i requires 0 <= i < |entries| => Timed(entries[i], nows[i]))
  }

  /** Splits the entries one by one, each at the time the clock then shows. */
  method SplitAll(db: BucketTable, clock: Clock, cfg: seq<Granularity>, entries: seq<Entry>)
    returns (ghost nows: seq<int>)
    requires Usable(cfg)
    modifies db, clock
    ensures |nows| == |entries| && clock.time >= old(clock.time)
    ensures forall now :: now in nows ==> now >= old(clock.time)
    ensures db.rows == SpreadAll(SplitBy(cfg), old(db.rows), TimedEntries(entries, nows))
  {
    nows := [];
    for i := 0 to |entries|
      invariant |nows| == i && clock.time >= old(clock.time)
      invariant forall now :: now in nows ==> now >= old(clock.time)
      invariant db.rows == SpreadAll(SplitBy(cfg), old(db.rows), TimedEntries(entries[..i], nows))
    {
      var now := clock.Now();
      db.SplitInBuckets(cfg, now, entries[i]);
      SpreadAllAppend(SplitBy(cfg), old(db.rows), TimedEntries(entries[..i], nows), Timed(entries[i], now));
      assert TimedEntries(entries[..i + 1], nows + [now])
        == TimedEntries(entries[..i], nows) + [Timed(entries[i], now)];
      nows := nows + [now];
    }
    assert entries[..|entries|] == entries;
  }

  lemma FieldOfAdd(a: Row, b: Row, f: nat)
    ensures Field(Add(a, b), f) == Field(a, f) + Field(b, f)
  {}

  lemma FieldOfScale(row: Row, p: real, f: nat)
    ensures Field(Scale(row, p), f) == Portion(Field(row, f), p)
  {}

  lemma ValueOfUpsert(t: Table, k: BucketKey, row: Row, at: BucketKey, f: nat)
    ensures Value(Upsert(t, k, row), at, f) == Value(t, at, f) + if at == k then Field(row, f) else 0.0
  {}

  /** What of the value `v` a bucket list brings to bucket `at`. */
  function PartAt(bs: seq<Bucket>, keys: seq<int>, v: real, at: BucketKey): real {
    if bs == [] then 0.0
    else
      (if at == BucketKey(bs[0].start, bs[0].width, keys) then Portion(v, bs[0].proportion) else 0.0)
      + PartAt(bs[1..], keys, v, at)
  }

  lemma {:induction false} ValueOfWriteAll(t: Table, bs: seq<Bucket>, keys: seq<int>, row: Row, at: BucketKey, f: nat)
    ensures Value(WriteAll(t, bs, keys, row), at, f) == Value(t, at, f) + PartAt(bs, keys, Field(row, f), at)
    decreases |bs|
  {
    if bs != [] {
      var k, part := BucketKey(bs[0].start, bs[0].width, keys), Scale(row, bs[0].proportion);
      ValueOfWriteAll(Upsert(t, k, part), bs[1..], keys, row, at, f);
      ValueOfUpsert(t, k, part, at, f);
      FieldOfScale(row, bs[0].proportion, f);
    }
  }

  /** What one entry adds to one field of one bucket. */
  function Contribution(split: Splitter, x: Timed, at: BucketKey, f: nat): real {
    PartAt(split(x), x.entry.keys, Field(x.entry.row, f), at)
  }

  function ContributionTo(split: Splitter, at: BucketKey, f: nat): Timed -> real {
    (x: Timed) => Contribution(split, x, at, f)
  }

  /** The table is the sum of what was written to it, whatever the order. */
  lemma {:induction false} TableIsSum(split: Splitter, t: Table, xs: seq<Timed>, at: BucketKey, f: nat)
    ensures Value(SpreadAll(split, t, xs), at, f) == Value(t, at, f) + SeqSum(xs, ContributionTo(split, at, f))
    decreases |xs|
  {
    if xs != [] {
      var x := xs[0];
      TableIsSum(split, Spread(split, t, x), xs[1..], at, f);
      ValueOfWriteAll(t, split(x), x.entry.keys, x.entry.row, at, f);
    }
  }

  // What one entry brings to one bucket.

  ghost predicate RisingStarts(bs: seq<Bucket>) {
    forall i, j :: 0 <= i < j < |bs| ==> bs[i].start < bs[j].start
  }

  lemma {:induction false} PartHere(bs: seq<Bucket>, keys: seq<int>, v: real, i: nat)
    requires i < |bs| && RisingStarts(bs)
    ensures PartAt(bs, keys, v, BucketKey(bs[i].start, bs[i].width, keys)) == Portion(v, bs[i].proportion)
    decreases |bs|
  {
    if i == 0 {
      PartElsewhere(bs[1..], keys, v, BucketKey(bs[0].start, bs[0].width, keys));
    } else {
      assert bs[1..][i - 1] == bs[i];
      PartHere(bs[1..], keys, v, i - 1);
    }
  }

  lemma {:induction false} PartElsewhere(bs: seq<Bucket>, keys: seq<int>, v: real, at: BucketKey)
    requires forall b :: b in bs ==> at != BucketKey(b.start, b.width, keys)
    ensures PartAt(bs, keys, v, at) == 0.0
    decreases |bs|
  {
    if bs != [] {
      assert bs[0] in bs;
      PartElsewhere(bs[1..], keys, v, at);
    }
  }

  lemma {:induction false} StartsRise(cfg: seq<Granularity>, now: int, start: int, end: int, i: nat, j: nat)
    requires Usable(cfg) && start <= end && i < j < |BucketsOf(cfg, now, start, end)|
    ensures var bs := BucketsOf(cfg, now, start, end); bs[i].start < bs[j].start
    decreases j - i
  {
    var bs := BucketsOf(cfg, now, start, end);
    RecordIsTiled(cfg, now, start, end);
    WidthsPositive(cfg, now, start, end);
    assert bs[i] in bs && bs[i + 1].start == bs[i].End();
    if i + 1 < j { StartsRise(cfg, now, start, end, i + 1, j); }
  }

  /** The buckets of the list have the start and the width of `at` among them. */
  predicate Meets(bs: seq<Bucket>, at: BucketKey) {
    exists i :: 0 <= i < |bs| && bs[i].start == at.start && bs[i].width == at.width
  }

  /** The share of the span that falls in bucket `at`; a span of no length falls whole in its bucket. */
  function ShareIn(at: BucketKey, start: int, end: int): real {
    if start == end then 1.0
    else Overlap(at.start, at.start + at.width, start, end) as real / (end - start) as real
  }

  lemma BucketsRise(cfg: seq<Granularity>, now: int, start: int, end: int)
    requires Usable(cfg) && start <= end
    ensures RisingStarts(BucketsOf(cfg, now, start, end))
  {
    var bs := BucketsOf(cfg, now, start, end);
    forall i, j | 0 <= i < j < |bs| ensures bs[i].start < bs[j].start { StartsRise(cfg, now, start, end, i, j); }
  }

  lemma ShareOfTile(bs: seq<Bucket>, start: int, end: int, i: nat, at: BucketKey)
    requires Tiles(bs, start, end) && start <= end && i < |bs| && bs[i].start == at.start && bs[i].width == at.width
    ensures bs[i].proportion == ShareIn(at, start, end)
  {
    if start < end { assert HoldsShare(bs[i], start, end); }
  }

  /** An entry brings each of its buckets the field times the share of its span that falls there. */
  lemma EntryBrings(cfg: seq<Granularity>, x: Timed, at: BucketKey, f: nat)
    requires Usable(cfg) && x.entry.start <= x.entry.end
    ensures Contribution(SplitBy(cfg), x, at, f)
         == if at.keys == x.entry.keys && Meets(SplitBy(cfg)(x), at)
            then Portion(Field(x.entry.row, f), ShareIn(at, x.entry.start, x.entry.end)) else 0.0
  {
    var e, bs := x.entry, SplitBy(cfg)(x);
    if at.keys == e.keys && Meets(bs, at) {
      var i :| 0 <= i < |bs| && bs[i].start == at.start && bs[i].width == at.width;
      RecordIsTiled(cfg, x.now, e.start, e.end);
      ShareOfTile(bs, e.start, e.end, i, at);
      BucketsRise(cfg, x.now, e.start, e.end);
      PartHere(bs, e.keys, Field(e.row, f), i);
    } else {
      PartElsewhere(bs, e.keys, Field(e.row, f), at);
    }
  }

  // Totals over the rows a selector picks.

  ghost function Picked(t: Table, sel: BucketKey -> bool, f: nat): BucketKey -> real {
    k => if sel(k) then Value(t, k, f) else 0.0
  }

  ghost function Total(t: Table, sel: BucketKey -> bool, f: nat): real {
    Sum(t.Keys, Picked(t, sel, f))
  }

  /** The rows with the given key fields. */
  function WithKeys(keys: seq<int>): BucketKey -> bool {
    (k: BucketKey) => k.keys == keys
  }

  /** The rows with the given key fields that start in the given week. */
  function InWeek(keys: seq<int>, week: int): BucketKey -> bool {
    (k: BucketKey) => k.keys == keys && Floor(k.start, MAX_BUCKET_TIME) == week
  }

  lemma TotalOfUpsert(t: Table, k: BucketKey, row: Row, sel: BucketKey -> bool, f: nat)
    ensures Total(Upsert(t, k, row), sel, f) == Total(t, sel, f) + if sel(k) then Field(row, f) else 0.0
  {
    var t' := Upsert(t, k, row);
    SumExtract(t'.Keys, k, Picked(t', sel, f));
    if k in t {
      SumExtract(t.Keys, k, Picked(t, sel, f));
    }
    assert t'.Keys - {k} == t.Keys - {k};
    SumCongruent(t.Keys - {k}, Picked(t, sel, f), Picked(t', sel, f));
    ValueOfUpsert(t, k, row, k, f);
    assert k !in t ==> t.Keys - {k} == t.Keys;
  }

  function Portions(v: real, bs: seq<Bucket>): real {
    if bs == [] then 0.0 else Portion(v, bs[0].proportion) + Portions(v, bs[1..])
  }

  lemma {:induction false} PortionsAddUp(v: real, bs: seq<Bucket>)
    ensures Portions(v, bs) == Portion(v, TotalProportion(bs))
    decreases |bs|
  {
    if bs != [] {
      PortionsAddUp(v, bs[1..]);
      Distribute(v, bs[0].proportion, TotalProportion(bs[1..]));
    }
  }

  lemma Distribute(v: real, p: real, q: real)
    ensures Portion(v, p + q) == Portion(v, p) + Portion(v, q)
  {}

  /** Writing an entry whose buckets are all picked, or none of them, moves the total by the part written. */
  lemma {:induction false} TotalOfWriteAll(t: Table, bs: seq<Bucket>, keys: seq<int>, row: Row,
                                           sel: BucketKey -> bool, picked: bool, f: nat)
    requires forall b :: b in bs ==> sel(BucketKey(b.start, b.width, keys)) == picked
    ensures Total(WriteAll(t, bs, keys, row), sel, f)
         == Total(t, sel, f) + if picked then Portions(Field(row, f), bs) else 0.0
    decreases |bs|
  {
    if bs != [] {
      var b := bs[0];
      var k := BucketKey(b.start, b.width, keys);
      assert b in bs;
      TotalOfWriteAll(Upsert(t, k, Scale(row, b.proportion)), bs[1..], keys, row, sel, picked, f);
      TotalOfUpsert(t, k, Scale(row, b.proportion), sel, f);
      FieldOfScale(row, b.proportion, f);
    }
  }

  /** The shares of every entry add up to all of it. */
  ghost predicate Whole(split: Splitter, xs: seq<Timed>) {
    forall x :: x in xs ==> TotalProportion(split(x)) == 1.0
  }

  ghost predicate Forward(xs: seq<Timed>) {
    forall x :: x in xs ==> x.entry.start <= x.entry.end
  }

  lemma ForwardIsWhole(cfg: seq<Granularity>, xs: seq<Timed>)
    requires Usable(cfg) && Forward(xs)
    ensures Whole(SplitBy(cfg), xs)
  {
    forall x | x in xs ensures TotalProportion(SplitBy(cfg)(x)) == 1.0 {
      RecordIsTiled(cfg, x.now, x.entry.start, x.entry.end);
    }
  }

  lemma TotalOfSpread(split: Splitter, t: Table, x: Timed, sel: BucketKey -> bool, picked: bool, f: nat)
    requires TotalProportion(split(x)) == 1.0
    requires forall b :: b in split(x) ==> sel(BucketKey(b.start, b.width, x.entry.keys)) == picked
    ensures Total(Spread(split, t, x), sel, f) == Total(t, sel, f) + if picked then Field(x.entry.row, f) else 0.0
  {
    TotalOfWriteAll(t, split(x), x.entry.keys, x.entry.row, sel, picked, f);
    PortionsAddUp(Field(x.entry.row, f), split(x));
  }

  /** What the picked entries add to a total. */
  function Amount(picks: Timed -> bool, f: nat): Timed -> real {
    (x: Timed) => if picks(x) then Field(x.entry.row, f) else 0.0
  }

  function OfKeys(keys: seq<int>): Timed -> bool {
    (x: Timed) => x.entry.keys == keys
  }

  function OfWeek(keys: seq<int>, week: int): Timed -> bool {
    (x: Timed) => x.entry.keys == keys && Floor(x.entry.start, MAX_BUCKET_TIME) == week
  }

  /** All the buckets of an entry are picked when it is, and none of them when it is not. */
  ghost predicate Respects(split: Splitter, x: Timed, sel: BucketKey -> bool, picks: Timed -> bool) {
    forall b :: b in split(x) ==> sel(BucketKey(b.start, b.width, x.entry.keys)) == picks(x)
  }

  /** The shares of every entry add up to all of it, or it has no bucket. */
  ghost predicate AllOrNone(split: Splitter, xs: seq<Timed>) {
    forall x :: x in xs ==> split(x) == [] || TotalProportion(split(x)) == 1.0
  }

  lemma ProgramSharesAll(cfg: seq<Granularity>, xs: seq<Timed>)
    requires Usable(cfg)
    ensures AllOrNone(SplitBy(cfg), xs)
  {
    forall x | x in xs ensures SplitBy(cfg)(x) == [] || TotalProportion(SplitBy(cfg)(x)) == 1.0 {
      SharesOfRecord(cfg, x.now, x.entry.start, x.entry.end);
    }
  }

  lemma PortionOneMore(v: real, m: real)
    ensures Portion(v, m + 1.0) == v + Portion(v, m)
  {}

  /** What the picked entries that have a bucket add to a total. */
  function LandedAmount(split: Splitter, picks: Timed -> bool, f: nat): Timed -> real {
    (x: Timed) => if picks(x) && split(x) != [] then Field(x.entry.row, f) else 0.0
  }

  /** Totals grow by exactly the picked entries that have a bucket. */
  lemma {:induction false} SpreadingAdds(split: Splitter, t: Table, xs: seq<Timed>,
                                         sel: BucketKey -> bool, picks: Timed -> bool, f: nat)
    requires AllOrNone(split, xs)
    requires forall x :: x in xs ==> Respects(split, x, sel, picks)
    ensures Total(SpreadAll(split, t, xs), sel, f) == Total(t, sel, f) + SeqSum(xs, LandedAmount(split, picks, f))
    decreases |xs|
  {
    if xs != [] {
      assert xs[0] in xs && forall x :: x in xs[1..] ==> x in xs;
      if split(xs[0]) != [] { TotalOfSpread(split, t, xs[0], sel, picks(xs[0]), f); }
      SpreadingAdds(split, Spread(split, t, xs[0]), xs[1..], sel, picks, f);
    }
  }

  /** What the picked entries without a bucket are worth. */
  function LostAmount(split: Splitter, picks: Timed -> bool, f: nat): Timed -> real {
    (x: Timed) => if picks(x) && split(x) == [] then Field(x.entry.row, f) else 0.0
  }

  lemma SpreadingConserves(split: Splitter, t: Table, xs: seq<Timed>,
                           sel: BucketKey -> bool, picks: Timed -> bool, f: nat)
    requires Whole(split, xs)
    requires forall x :: x in xs ==> Respects(split, x, sel, picks)
    ensures Total(SpreadAll(split, t, xs), sel, f) == Total(t, sel, f) + SeqSum(xs, Amount(picks, f))
  {
    SpreadingAdds(split, t, xs, sel, picks, f);
    SeqSumCongruent(xs, Amount(picks, f), LandedAmount(split, picks, f));
  }

  lemma {:induction false} SpreadAllAppend(split: Splitter, t: Table, xs: seq<Timed>, x: Timed)
    ensures SpreadAll(split, t, xs + [x]) == Spread(split, SpreadAll(split, t, xs), x)
    decreases |xs|
  {
    if xs == [] {
      assert [x][1..] == [];
    } else {
      assert (xs + [x])[1..] == xs[1..] + [x];
      SpreadAllAppend(split, Spread(split, t, xs[0]), xs[1..], x);
    }
  }

  /** Taking rows out takes exactly their values out of every total. */
  lemma TotalOfRemoval(t: Table, removed: set<BucketKey>, sel: BucketKey -> bool, f: nat)
    requires removed <= t.Keys
    ensures Total(t, sel, f) == Total(t - removed, sel, f) + Sum(removed, Picked(t, sel, f))
  {
    var rest := t - removed;
    assert t.Keys == rest.Keys + removed;
    SumDisjoint(rest.Keys, removed, Picked(t, sel, f));
    SumCongruent(rest.Keys, Picked(t, sel, f), Picked(rest, sel, f));
  }

  /** What of the value `v` a bucket list brings to the buckets of a selector. */
  function PickedPart(bs: seq<Bucket>, keys: seq<int>, v: real, sel: BucketKey -> bool): real {
    if bs == [] then 0.0
    else
      (if sel(BucketKey(bs[0].start, bs[0].width, keys)) then Portion(v, bs[0].proportion) else 0.0)
      + PickedPart(bs[1..], keys, v, sel)
  }

  function PickedBy(split: Splitter, sel: BucketKey -> bool, f: nat): Timed -> real {
    (x: Timed) => PickedPart(split(x), x.entry.keys, Field(x.entry.row, f), sel)
  }

  lemma {:induction false} TotalOfParts(t: Table, bs: seq<Bucket>, keys: seq<int>, row: Row, sel: BucketKey -> bool,
                                        f: nat)
    ensures Total(WriteAll(t, bs, keys, row), sel, f) == Total(t, sel, f) + PickedPart(bs, keys, Field(row, f), sel)
    decreases |bs|
  {
    if bs != [] {
      var k, part := BucketKey(bs[0].start, bs[0].width, keys), Scale(row, bs[0].proportion);
      TotalOfParts(Upsert(t, k, part), bs[1..], keys, row, sel, f);
      TotalOfUpsert(t, k, part, sel, f);
      FieldOfScale(row, bs[0].proportion, f);
    }
  }

  /** The total over any selector is the sum of the parts that were written to it. */
  lemma {:induction false} TotalIsSum(split: Splitter, t: Table, xs: seq<Timed>, sel: BucketKey -> bool, f: nat)
    ensures Total(SpreadAll(split, t, xs), sel, f) == Total(t, sel, f) + SeqSum(xs, PickedBy(split, sel, f))
    decreases |xs|
  {
    if xs != [] {
      TotalOfParts(t, split(xs[0]), xs[0].entry.keys, xs[0].entry.row, sel, f);
      TotalIsSum(split, Spread(split, t, xs[0]), xs[1..], sel, f);
    }
  }

  function PickedRecord(sel: BucketKey -> bool, f: nat): Record -> real {
    (r: Record) => if sel(r.key) then Field(r.row, f) else 0.0
  }

  ghost predicate RecordsOf(t: Table, records: seq<Record>) {
    && (forall i, j :: 0 <= i < j < |records| ==> records[i].key != records[j].key)
    && (forall r :: r in records ==> r.key in t && r.row == t[r.key])
  }

  /** The removed rows, listed. */
  lemma RemovedAmount(t: Table, records: seq<Record>, sel: BucketKey -> bool, f: nat)
    requires RecordsOf(t, records)
    ensures Sum(KeysOf(records), Picked(t, sel, f)) == SeqSum(records, PickedRecord(sel, f))
  {
    var ks := seq(|records|, i requires 0 <= i < |records| => records[i].key);
    forall k ensures k in KeysOf(records) <==> k in ks {
      if k in KeysOf(records) {
        var i :| 0 <= i < |records| && records[i].key == k;
        assert ks[i] == k;
      }
    }
    SeqSumOfSet(ks, KeysOf(records), Picked(t, sel, f));
    forall i | 0 <= i < |records| ensures Picked(t, sel, f)(ks[i]) == PickedRecord(sel, f)(records[i]) {
      assert records[i] in records;
    }
    SeqSumMapped(ks, records, Picked(t, sel, f), PickedRecord(sel, f));
  }

  // What bucketing does to the shape of the rows.

  ghost predicate PositiveWidths(t: Table) {
    forall k :: k in t ==> k.width > 0
  }

  ghost predicate AlignedRows(t: Table) {
    forall k :: k in t ==> k.width > 0 && Divides(k.width, k.start)
  }

  /** The only rows writing can add are those of the buckets written. */
  lemma {:induction false} KeysOfWriteAll(t: Table, bs: seq<Bucket>, keys: seq<int>, row: Row)
    ensures forall k :: k in WriteAll(t, bs, keys, row) <==>
      k in t || exists b :: b in bs && k == BucketKey(b.start, b.width, keys)
    decreases |bs|
  {
    if bs != [] {
      var k0 := BucketKey(bs[0].start, bs[0].width, keys);
      var t' := Upsert(t, k0, Scale(row, bs[0].proportion));
      KeysOfWriteAll(t', bs[1..], keys, row);
      forall k ensures k in WriteAll(t, bs, keys, row) <==>
        k in t || exists b :: b in bs && k == BucketKey(b.start, b.width, keys)
      {
        assert k in t' <==> k in t || k == k0;
        if exists b :: b in bs && k == BucketKey(b.start, b.width, keys) {
          var b :| b in bs && k == BucketKey(b.start, b.width, keys);
          assert b == bs[0] || b in bs[1..];
        }
      }
    }
  }

  lemma SpreadShape(cfg: seq<Granularity>, t: Table, x: Timed)
    requires Usable(cfg)
    ensures PositiveWidths(t) ==> PositiveWidths(Spread(SplitBy(cfg), t, x))
    ensures Chain(cfg) && AlignedRows(t) ==> AlignedRows(Spread(SplitBy(cfg), t, x))
  {
    var e := x.entry;
    KeysOfWriteAll(t, BucketsOf(cfg, x.now, e.start, e.end), e.keys, e.row);
    WidthsPositive(cfg, x.now, e.start, e.end);
    if Chain(cfg) {
      ChainKeepsAlignment(cfg, x.now, e.start, e.end);
    }
  }
}
