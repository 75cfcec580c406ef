/** Deleting raw records, and taking them out of the buckets they were put in. */
module Deletion {
  import opened Granularities
  import opened Buckets
  import opened BucketTables
  import opened Regeneration
  import opened Sums

  /** GREATEST(0, value) on every field. */
  function Clamp(v: real): real { if v < 0.0 then 0.0 else v }

  function Subtract(row: Row, values: Row, p: real): Row {
    seq(|row|, i requires 0 <= i < |row| => Clamp(row[i] - Portion(Field(values, i), p)))
  }

  /** UPDATE .. WHERE: a bucket that is not there is left alone. */
  function Extract(t: Table, k: BucketKey, values: Row, p: real): Table {
    if k in t then t[k := Subtract(t[k], values, p)] else t
  }

  function ExtractAll(t: Table, bs: seq<Bucket>, keys: seq<int>, values: Row, n: real): Table
    decreases |bs|
  {
    if bs == [] then t
    else
      ExtractAll(Extract(t, BucketKey(bs[0].start, bs[0].width, keys), values, Portion(bs[0].proportion, n)),
                 bs[1..], keys, values, n)
  }

  method DeleteFromBuckets(db: BucketTable, cfg: seq<Granularity>, lastCompactionEpoch: int,
                           keys: seq<int>, values: Row, start: int, end: int, numInsertions: nat)
    requires Usable(cfg)
    modifies db
    ensures db.rows == ExtractAll(old(db.rows), BucketsOf(cfg, lastCompactionEpoch, start, end),
                                  keys, values, numInsertions as real)
  {
    var buckets := CalculateBuckets(cfg, lastCompactionEpoch, start, end);
    for i := 0 to |buckets|
      invariant ExtractAll(db.rows, buckets[i..], keys, values, numInsertions as real)
             == ExtractAll(old(db.rows), buckets, keys, values, numInsertions as real)
    {
      var b := buckets[i];
      var k := BucketKey(b.start, b.width, keys);
      var proportion := Portion(b.proportion, numInsertions as real);
      if k in db.rows {
        db.rows := db.rows[k := Subtract(db.rows[k], values, proportion)];
      }
      assert buckets[i..][1..] == buckets[i + 1..];
    }
  }

  /** The positions of the value fields declared FLOAT. The comparison built for them is never added to the
      WHERE clause, so the deletion ignores them. */
  predicate Same(r: RawRecord, x: RawRecord, floats: set<nat>) {
    && x.keys == r.keys && x.start == r.start && x.end == r.end
    && |x.values| == |r.values|
    && forall f :: 0 <= f < |r.values| && f !in floats ==> x.values[f] == r.values[f]
  }

  function Others(raw: seq<RawRecord>, r: RawRecord, floats: set<nat>): seq<RawRecord> {
    if raw == [] then []
    else (if Same(r, raw[0], floats) then [] else [raw[0]]) + Others(raw[1..], r, floats)
  }

  method DeleteRecord(db: BucketTable, cfg: seq<Granularity>, lastCompactionEpoch: int,
                      raw: seq<RawRecord>, r: RawRecord, floats: set<nat>)
    returns (rest: seq<RawRecord>, numInsertions: nat)
    requires Usable(cfg)
    modifies db
    ensures rest == Others(raw, r, floats) && numInsertions == |raw| - |rest|
    ensures numInsertions == 0 ==> db.rows == old(db.rows)
    ensures numInsertions > 0 ==>
      db.rows == ExtractAll(old(db.rows), BucketsOf(cfg, lastCompactionEpoch, r.start, r.end),
                            r.keys, r.values + [1.0], numInsertions as real)
  {
    OthersShorter(raw, r, floats);
    rest := Others(raw, r, floats);
    numInsertions := |raw| - |rest|;
    if numInsertions > 0 {
      DeleteFromBuckets(db, cfg, lastCompactionEpoch, r.keys, r.values + [1.0], r.start, r.end, numInsertions);
    }
  }

  lemma {:induction false} OthersShorter(raw: seq<RawRecord>, r: RawRecord, floats: set<nat>)
    ensures |Others(raw, r, floats)| <= |raw|
    decreases |raw|
  {
    if raw != [] { OthersShorter(raw[1..], r, floats); }
  }

  /** What stays are the records that differ in key fields, times, number of values or a value that is no FLOAT, each as
      often as before. */
  lemma {:induction false} OthersAre(raw: seq<RawRecord>, r: RawRecord, floats: set<nat>, x: RawRecord)
    ensures multiset(Others(raw, r, floats))[x] ==
      if x.keys != r.keys || x.start != r.start || x.end != r.end || |x.values| != |r.values|
         || exists f :: 0 <= f < |r.values| && f !in floats && x.values[f] != r.values[f]
      then multiset(raw)[x] else 0
    decreases |raw|
  {
    if raw != [] {
      OthersAre(raw[1..], r, floats, x);
      assert raw == [raw[0]] + raw[1..];
    }
  }

  // Raw records and the times at which they were inserted.

  function Inserted(raw: seq<RawRecord>, nows: seq<int>): seq<Timed>
    requires |raw| == |nows|
  {
    TimedEntries(RawEntries(raw), nows)
  }

  function OtherTimes(raw: seq<RawRecord>, nows: seq<int>, r: RawRecord, floats: set<nat>): (times: seq<int>)
    requires |raw| == |nows|
    ensures |times| == |Others(raw, r, floats)|
    decreases |raw|
  {
    if raw == [] then []
    else (if Same(r, raw[0], floats) then [] else [nows[0]]) + OtherTimes(raw[1..], nows[1..], r, floats)
  }

  /** The sum of field `f` over the records the deletion takes. */
  function DeletedSum(raw: seq<RawRecord>, r: RawRecord, floats: set<nat>, f: nat): real {
    if raw == [] then 0.0
    else (if Same(r, raw[0], floats) then Field(raw[0].values + [1.0], f) else 0.0) + DeletedSum(raw[1..], r, floats, f)
  }

  ghost predicate NonNegative(t: Table) {
    forall k: BucketKey, f: nat :: Value(t, k, f) >= 0.0
  }

  ghost predicate NonNegativeValues(raw: seq<RawRecord>) {
    forall r, f: nat :: r in raw ==> Field(r.values + [1.0], f) >= 0.0
  }

  /** Every copy was split in the buckets `bs`. */
  ghost predicate AllSplitIn(split: Splitter, raw: seq<RawRecord>, nows: seq<int>, r: RawRecord, floats: set<nat>,
                             bs: seq<Bucket>)
    requires |raw| == |nows|
  {
    forall i :: 0 <= i < |raw| && Same(r, raw[i], floats) ==> split(Timed(RawEntry(raw[i]), nows[i])) == bs
  }

  lemma {:induction false} PartOfSum(bs: seq<Bucket>, keys: seq<int>, v: real, w: real, at: BucketKey)
    ensures PartAt(bs, keys, v + w, at) == PartAt(bs, keys, v, at) + PartAt(bs, keys, w, at)
    decreases |bs|
  {
    if bs != [] {
      PartOfSum(bs[1..], keys, v, w, at);
      DistributeLeft(v, w, bs[0].proportion);
    }
  }

  lemma DistributeLeft(v: real, w: real, p: real)
    ensures Portion(v + w, p) == Portion(v, p) + Portion(w, p)
  {}

  lemma {:induction false} PartOfNothing(bs: seq<Bucket>, keys: seq<int>, at: BucketKey)
    ensures PartAt(bs, keys, 0.0, at) == 0.0
    decreases |bs|
  {
    if bs != [] { PartOfNothing(bs[1..], keys, at); }
  }

  /** The first record is among the others exactly when the deletion passes it over. */
  lemma InsertedStep(raw: seq<RawRecord>, nows: seq<int>, r: RawRecord, floats: set<nat>)
    requires |raw| == |nows| && raw != []
    ensures Inserted(raw, nows)[0] == Timed(RawEntry(raw[0]), nows[0])
    ensures Inserted(raw, nows)[1..] == Inserted(raw[1..], nows[1..])
    ensures var later := Inserted(Others(raw[1..], r, floats), OtherTimes(raw[1..], nows[1..], r, floats));
      Inserted(Others(raw, r, floats), OtherTimes(raw, nows, r, floats))
      == if Same(r, raw[0], floats) then later else [Timed(RawEntry(raw[0]), nows[0])] + later
  {
    var others, times := Others(raw[1..], r, floats), OtherTimes(raw[1..], nows[1..], r, floats);
    if Same(r, raw[0], floats) {
      assert Others(raw, r, floats) == others && OtherTimes(raw, nows, r, floats) == times;
    } else {
      assert Others(raw, r, floats) == [raw[0]] + others && OtherTimes(raw, nows, r, floats) == [nows[0]] + times;
      InsertedHead(raw[0], others, nows[0], times);
    }
  }

  lemma InsertedHead(r: RawRecord, raw: seq<RawRecord>, now: int, nows: seq<int>)
    requires |raw| == |nows|
    ensures Inserted([r] + raw, [now] + nows) == [Timed(RawEntry(r), now)] + Inserted(raw, nows)
  {}

  /** What the inserted records bring to a bucket is what the others bring and the part of the deleted sum. */
  lemma {:induction false} InsertedParts(split: Splitter, raw: seq<RawRecord>, nows: seq<int>, r: RawRecord,
                                         floats: set<nat>, bs: seq<Bucket>, at: BucketKey, f: nat)
    requires |raw| == |nows| && AllSplitIn(split, raw, nows, r, floats, bs)
    ensures SeqSum(Inserted(raw, nows), ContributionTo(split, at, f))
         == SeqSum(Inserted(Others(raw, r, floats), OtherTimes(raw, nows, r, floats)), ContributionTo(split, at, f))
          + PartAt(bs, r.keys, DeletedSum(raw, r, floats, f), at)
    decreases |raw|
  {
    if raw == [] {
      PartOfNothing(bs, r.keys, at);
    } else {
      InsertedParts(split, raw[1..], nows[1..], r, floats, bs, at, f);
      InsertedStep(raw, nows, r, floats);
      if Same(r, raw[0], floats) {
        PartOfSum(bs, r.keys, Field(raw[0].values + [1.0], f), DeletedSum(raw[1..], r, floats, f), at);
      } else {
        var others := Inserted(Others(raw, r, floats), OtherTimes(raw, nows, r, floats));
        assert others[1..] == Inserted(Others(raw[1..], r, floats), OtherTimes(raw[1..], nows[1..], r, floats));
      }
    }
  }

  // What the extraction leaves in each bucket.

  /** The bucket is there, with a column for each of the values. */
  predicate HasColumns(t: Table, k: BucketKey, width: nat) {
    k in t && |t[k]| >= width
  }

  ghost predicate Present(t: Table, bs: seq<Bucket>, keys: seq<int>, width: nat) {
    forall b :: b in bs ==> HasColumns(t, BucketKey(b.start, b.width, keys), width)
  }

  lemma {:induction false} ExtractElsewhere(t: Table, bs: seq<Bucket>, keys: seq<int>, values: Row, n: real,
                                            at: BucketKey, f: nat)
    requires forall b :: b in bs ==> at != BucketKey(b.start, b.width, keys)
    ensures Value(ExtractAll(t, bs, keys, values, n), at, f) == Value(t, at, f)
    decreases |bs|
  {
    if bs != [] {
      assert bs[0] in bs;
      var t' := Extract(t, BucketKey(bs[0].start, bs[0].width, keys), values, Portion(bs[0].proportion, n));
      ExtractElsewhere(t', bs[1..], keys, values, n, at, f);
    }
  }

  lemma ValueOfExtract(t: Table, k: BucketKey, values: Row, p: real, f: nat)
    requires k in t && |t[k]| >= |values| && Value(t, k, f) >= 0.0
    ensures Value(Extract(t, k, values, p), k, f) == Clamp(Value(t, k, f) - Portion(Field(values, f), p))
  {}

  lemma {:induction false} ExtractHere(t: Table, bs: seq<Bucket>, keys: seq<int>, values: Row, n: real, i: nat, f: nat)
    requires i < |bs| && RisingStarts(bs) && HasColumns(t, BucketKey(bs[i].start, bs[i].width, keys), |values|)
    requires Value(t, BucketKey(bs[i].start, bs[i].width, keys), f) >= 0.0
    ensures var k := BucketKey(bs[i].start, bs[i].width, keys);
      Value(ExtractAll(t, bs, keys, values, n), k, f)
      == Clamp(Value(t, k, f) - Portion(Field(values, f), Portion(bs[i].proportion, n)))
    decreases |bs|
  {
    var k0 := BucketKey(bs[0].start, bs[0].width, keys);
    var t' := Extract(t, k0, values, Portion(bs[0].proportion, n));
    assert bs[0] in bs && bs[i] in bs;
    if i == 0 {
      ValueOfExtract(t, k0, values, Portion(bs[0].proportion, n), f);
      ExtractElsewhere(t', bs[1..], keys, values, n, k0, f);
    } else {
      assert bs[1..][i - 1] == bs[i];
      ExtractHere(t', bs[1..], keys, values, n, i - 1, f);
    }
  }

  /** What deleting does to any table: `n` times the share of the record that falls in a bucket is taken off each bucket
      of the record that is there, though never below zero, and nothing is taken off any other. */
  lemma DeletionTakes(cfg: seq<Granularity>, epoch: int, t: Table, keys: seq<int>, values: Row, start: int, end: int,
                      n: real, at: BucketKey, f: nat)
    requires Usable(cfg) && start <= end && (at in t ==> HasColumns(t, at, |values|) && Value(t, at, f) >= 0.0)
    ensures var bs := BucketsOf(cfg, epoch, start, end);
      Value(ExtractAll(t, bs, keys, values, n), at, f)
      == if at in t && at.keys == keys && Meets(bs, at)
         then Clamp(Value(t, at, f) - Portion(Field(values, f), Portion(ShareIn(at, start, end), n)))
         else Value(t, at, f)
  {
    var bs := BucketsOf(cfg, epoch, start, end);
    if at.keys == keys && Meets(bs, at) {
      var i :| 0 <= i < |bs| && bs[i].start == at.start && bs[i].width == at.width;
      RecordIsTiled(cfg, epoch, start, end);
      ShareOfTile(bs, start, end, i, at);
      BucketsRise(cfg, epoch, start, end);
      if at in t { ExtractHere(t, bs, keys, values, n, i, f); } else { ExtractKeepsKeys(t, bs, keys, values, n); }
    } else {
      ExtractElsewhere(t, bs, keys, values, n, at, f);
    }
  }

  lemma {:induction false} ExtractKeepsKeys(t: Table, bs: seq<Bucket>, keys: seq<int>, values: Row, n: real)
    ensures ExtractAll(t, bs, keys, values, n).Keys == t.Keys
    decreases |bs|
  {
    if bs != [] {
      var k := BucketKey(bs[0].start, bs[0].width, keys);
      ExtractKeepsKeys(Extract(t, k, values, Portion(bs[0].proportion, n)), bs[1..], keys, values, n);
    }
  }

  // The buckets of a table that was written to.

  lemma {:induction false} WriteAllKeepsColumns(t: Table, bs: seq<Bucket>, keys: seq<int>, row: Row, k: BucketKey,
                                                width: nat)
    requires (k in t && |t[k]| >= width)
      || (|row| >= width && exists b :: b in bs && k == BucketKey(b.start, b.width, keys))
    ensures k in WriteAll(t, bs, keys, row) && |WriteAll(t, bs, keys, row)[k]| >= width
    decreases |bs|
  {
    if bs != [] {
      var t' := Upsert(t, BucketKey(bs[0].start, bs[0].width, keys), Scale(row, bs[0].proportion));
      if !(k in t && |t[k]| >= width) {
        var b :| b in bs && k == BucketKey(b.start, b.width, keys);
        assert b == bs[0] || b in bs[1..];
      }
      WriteAllKeepsColumns(t', bs[1..], keys, row, k, width);
    }
  }

  lemma {:induction false} SpreadAllKeepsColumns(split: Splitter, t: Table, xs: seq<Timed>, k: BucketKey, width: nat)
    requires || (k in t && |t[k]| >= width)
             || exists x, b ::
                  x in xs && |x.entry.row| >= width && b in split(x) && k == BucketKey(b.start, b.width, x.entry.keys)
    ensures k in SpreadAll(split, t, xs) && |SpreadAll(split, t, xs)[k]| >= width
    decreases |xs|
  {
    if xs != [] {
      var x0 := xs[0];
      var t' := Spread(split, t, x0);
      if k in t && |t[k]| >= width {
        WriteAllKeepsColumns(t, split(x0), x0.entry.keys, x0.entry.row, k, width);
      } else {
        var x, b :| x in xs && |x.entry.row| >= width && b in split(x)
          && k == BucketKey(b.start, b.width, x.entry.keys);
        if x == x0 {
          WriteAllKeepsColumns(t, split(x0), x0.entry.keys, x0.entry.row, k, width);
        } else {
          assert x in xs[1..];
        }
      }
      SpreadAllKeepsColumns(split, t', xs[1..], k, width);
    }
  }

  lemma {:induction false} PartNonNegative(bs: seq<Bucket>, keys: seq<int>, v: real, at: BucketKey)
    requires v >= 0.0 && forall b :: b in bs ==> b.proportion >= 0.0
    ensures PartAt(bs, keys, v, at) >= 0.0
    decreases |bs|
  {
    if bs != [] {
      assert bs[0] in bs;
      ProductNonNegative(v, bs[0].proportion);
      PartNonNegative(bs[1..], keys, v, at);
    }
  }

  lemma ProductNonNegative(v: real, p: real)
    requires v >= 0.0 && p >= 0.0
    ensures Portion(v, p) >= 0.0
  {}

  // The deletion as a whole.

  /** The table without the deleted records: as if they had never been inserted. */
  function WithoutThem(split: Splitter, t0: Table, raw: seq<RawRecord>, nows: seq<int>, r: RawRecord,
                       floats: set<nat>): Table
    requires |raw| == |nows|
  {
    SpreadAll(split, t0, Inserted(Others(raw, r, floats), OtherTimes(raw, nows, r, floats)))
  }

  function Deleted(raw: seq<RawRecord>, r: RawRecord, floats: set<nat>): nat {
    OthersShorter(raw, r, floats);
    |raw| - |Others(raw, r, floats)|
  }

  /** The table after the deletion has extracted them. */
  function AfterDeletion(split: Splitter, t0: Table, raw: seq<RawRecord>, nows: seq<int>, r: RawRecord,
                         floats: set<nat>, bs: seq<Bucket>): Table
    requires |raw| == |nows|
  {
    ExtractAll(SpreadAll(split, t0, Inserted(raw, nows)), bs, r.keys, r.values + [1.0], Deleted(raw, r, floats) as real)
  }

  /** A splitting as the program does it: positive shares in buckets of rising starts. */
  ghost predicate Proper(bs: seq<Bucket>) {
    RisingStarts(bs) && forall b :: b in bs ==> b.proportion > 0.0
  }

  ghost predicate Setting(split: Splitter, t0: Table, raw: seq<RawRecord>, nows: seq<int>, r: RawRecord,
                          floats: set<nat>, bs: seq<Bucket>)
  {
    && |raw| == |nows| && AllSplitIn(split, raw, nows, r, floats, bs) && Deleted(raw, r, floats) > 0
    && NonNegative(t0) && NonNegativeValues(raw)
    && Proper(bs) && forall x :: x in Inserted(raw, nows) ==> Proper(split(x))
  }

  lemma {:induction false} SpreadNonNegative(split: Splitter, t: Table, xs: seq<Timed>)
    requires NonNegative(t) && forall x :: x in xs ==> Proper(split(x)) && forall f: nat :: Field(x.entry.row, f) >= 0.0
    ensures NonNegative(SpreadAll(split, t, xs))
    decreases |xs|
  {
    if xs != [] {
      var x := xs[0];
      assert x in xs && forall y :: y in xs[1..] ==> y in xs;
      forall k: BucketKey, f: nat ensures Value(Spread(split, t, x), k, f) >= 0.0 {
        ValueOfWriteAll(t, split(x), x.entry.keys, x.entry.row, k, f);
        PartNonNegative(split(x), x.entry.keys, Field(x.entry.row, f), k);
      }
      SpreadNonNegative(split, Spread(split, t, x), xs[1..]);
    }
  }

  lemma {:induction false} OthersAmong(raw: seq<RawRecord>, nows: seq<int>, r: RawRecord, floats: set<nat>)
    requires |raw| == |nows|
    ensures forall x :: x in Inserted(Others(raw, r, floats), OtherTimes(raw, nows, r, floats)) ==>
      x in Inserted(raw, nows)
    decreases |raw|
  {
    if raw != [] {
      OthersAmong(raw[1..], nows[1..], r, floats);
      InsertedStep(raw, nows, r, floats);
      var all, others := Inserted(raw, nows), Inserted(Others(raw, r, floats), OtherTimes(raw, nows, r, floats));
      forall x | x in others ensures x in all {
        assert x == all[0] || x in all[1..];
      }
    }
  }

  lemma {:induction false} SomeCopy(raw: seq<RawRecord>, r: RawRecord, floats: set<nat>) returns (i: nat)
    requires Deleted(raw, r, floats) > 0
    ensures i < |raw| && Same(r, raw[i], floats)
    decreases |raw|
  {
    if Same(r, raw[0], floats) {
      i := 0;
    } else {
      var j := SomeCopy(raw[1..], r, floats);
      i := j + 1;
    }
  }

  lemma SettingNonNegative(split: Splitter, t0: Table, raw: seq<RawRecord>, nows: seq<int>, r: RawRecord,
                           floats: set<nat>, bs: seq<Bucket>)
    requires Setting(split, t0, raw, nows, r, floats, bs)
    ensures NonNegative(SpreadAll(split, t0, Inserted(raw, nows)))
    ensures NonNegative(WithoutThem(split, t0, raw, nows, r, floats))
  {
    forall x | x in Inserted(raw, nows) ensures forall f: nat :: Field(x.entry.row, f) >= 0.0 {
      var i :| 0 <= i < |raw| && x == Timed(RawEntry(raw[i]), nows[i]);
      assert raw[i] in raw;
    }
    SpreadNonNegative(split, t0, Inserted(raw, nows));
    OthersAmong(raw, nows, r, floats);
    SpreadNonNegative(split, t0, Inserted(Others(raw, r, floats), OtherTimes(raw, nows, r, floats)));
  }

  lemma SettingPresent(split: Splitter, t0: Table, raw: seq<RawRecord>, nows: seq<int>, r: RawRecord,
                       floats: set<nat>, bs: seq<Bucket>)
    requires Setting(split, t0, raw, nows, r, floats, bs)
    ensures Present(SpreadAll(split, t0, Inserted(raw, nows)), bs, r.keys, |r.values| + 1)
  {
    var i := SomeCopy(raw, r, floats);
    var x := Timed(RawEntry(raw[i]), nows[i]);
    assert Inserted(raw, nows)[i] == x;
    forall b | b in bs
      ensures var t, k := SpreadAll(split, t0, Inserted(raw, nows)), BucketKey(b.start, b.width, r.keys);
        k in t && |t[k]| >= |r.values| + 1
    {
      SpreadAllKeepsColumns(split, t0, Inserted(raw, nows), BucketKey(b.start, b.width, r.keys), |r.values| + 1);
    }
  }

  /** Buckets the record does not touch keep what the others put there. */
  lemma DeletionElsewhere(split: Splitter, t0: Table, raw: seq<RawRecord>, nows: seq<int>, r: RawRecord,
                          floats: set<nat>, bs: seq<Bucket>, at: BucketKey, f: nat)
    requires Setting(split, t0, raw, nows, r, floats, bs)
    requires forall b :: b in bs ==> at != BucketKey(b.start, b.width, r.keys)
    ensures Value(AfterDeletion(split, t0, raw, nows, r, floats, bs), at, f)
         == Value(WithoutThem(split, t0, raw, nows, r, floats), at, f)
  {
    var t := SpreadAll(split, t0, Inserted(raw, nows));
    ExtractElsewhere(t, bs, r.keys, r.values + [1.0], Deleted(raw, r, floats) as real, at, f);
    PartElsewhere(bs, r.keys, DeletedSum(raw, r, floats, f), at);
    InsertedParts(split, raw, nows, r, floats, bs, at, f);
    TableIsSum(split, t0, Inserted(raw, nows), at, f);
    TableIsSum(split, t0, Inserted(Others(raw, r, floats), OtherTimes(raw, nows, r, floats)), at, f);
  }

  /** In a bucket it touches, the deletion trades the part of what it took for that of what it believes it took. */
  lemma DeletionHere(split: Splitter, t0: Table, raw: seq<RawRecord>, nows: seq<int>, r: RawRecord, floats: set<nat>,
                     bs: seq<Bucket>, i: nat, f: nat)
    requires Setting(split, t0, raw, nows, r, floats, bs) && i < |bs|
    ensures var k := BucketKey(bs[i].start, bs[i].width, r.keys);
      var kept := Value(WithoutThem(split, t0, raw, nows, r, floats), k, f);
      && kept >= 0.0
      && Value(AfterDeletion(split, t0, raw, nows, r, floats, bs), k, f)
      == Clamp(kept + Portion(DeletedSum(raw, r, floats, f), bs[i].proportion)
               - Portion(Field(r.values + [1.0], f), Portion(bs[i].proportion, Deleted(raw, r, floats) as real)))
  {
    var k := BucketKey(bs[i].start, bs[i].width, r.keys);
    SettingNonNegative(split, t0, raw, nows, r, floats, bs);
    SettingPresent(split, t0, raw, nows, r, floats, bs);
    ExtractHere(SpreadAll(split, t0, Inserted(raw, nows)), bs, r.keys, r.values + [1.0],
                Deleted(raw, r, floats) as real, i, f);
    PartHere(bs, r.keys, DeletedSum(raw, r, floats, f), i);
    InsertedParts(split, raw, nows, r, floats, bs, k, f);
    TableIsSum(split, t0, Inserted(raw, nows), k, f);
    TableIsSum(split, t0, Inserted(Others(raw, r, floats), OtherTimes(raw, nows, r, floats)), k, f);
  }

  /** The deletion restores field `f` of every bucket. */
  ghost predicate Restores(split: Splitter, t0: Table, raw: seq<RawRecord>, nows: seq<int>, r: RawRecord,
                           floats: set<nat>, bs: seq<Bucket>, f: nat)
    requires |raw| == |nows|
  {
    forall at :: Value(AfterDeletion(split, t0, raw, nows, r, floats, bs), at, f)
              == Value(WithoutThem(split, t0, raw, nows, r, floats), at, f)
  }

  /** Nothing but the deleted records is in the buckets. */
  ghost predicate Alone(split: Splitter, t0: Table, raw: seq<RawRecord>, nows: seq<int>, r: RawRecord,
                        floats: set<nat>, bs: seq<Bucket>, f: nat)
    requires |raw| == |nows|
  {
    forall b :: b in bs ==>
      Value(WithoutThem(split, t0, raw, nows, r, floats), BucketKey(b.start, b.width, r.keys), f) == 0.0
  }

  /** When trading `s` for `n` times `v`, in proportion, leaves what was kept. */
  predicate Settles(s: real, v: real, n: real, kept: real) {
    s == Portion(v, n) || (s < Portion(v, n) && kept == 0.0)
  }

  lemma ClampedTrade(kept: real, s: real, v: real, p: real, n: real)
    requires kept >= 0.0 && p > 0.0
    ensures Clamp(kept + Portion(s, p) - Portion(v, Portion(p, n))) == kept <==> Settles(s, v, n, kept)
  {}

  lemma BucketSettles(split: Splitter, t0: Table, raw: seq<RawRecord>, nows: seq<int>, r: RawRecord, floats: set<nat>,
                      bs: seq<Bucket>, i: nat, f: nat)
    requires Setting(split, t0, raw, nows, r, floats, bs) && i < |bs|
    ensures var k := BucketKey(bs[i].start, bs[i].width, r.keys);
      var kept := Value(WithoutThem(split, t0, raw, nows, r, floats), k, f);
      Value(AfterDeletion(split, t0, raw, nows, r, floats, bs), k, f) == kept <==>
      Settles(DeletedSum(raw, r, floats, f), Field(r.values + [1.0], f), Deleted(raw, r, floats) as real, kept)
  {
    DeletionHere(split, t0, raw, nows, r, floats, bs, i, f);
    assert bs[i] in bs;
    var k := BucketKey(bs[i].start, bs[i].width, r.keys);
    ClampedTrade(Value(WithoutThem(split, t0, raw, nows, r, floats), k, f), DeletedSum(raw, r, floats, f),
                 Field(r.values + [1.0], f), bs[i].proportion, Deleted(raw, r, floats) as real);
  }

  lemma NothingToDelete(split: Splitter, t0: Table, raw: seq<RawRecord>, nows: seq<int>, r: RawRecord,
                        floats: set<nat>, f: nat)
    requires Setting(split, t0, raw, nows, r, floats, [])
    ensures Restores(split, t0, raw, nows, r, floats, [], f)
  {
    forall at ensures Value(AfterDeletion(split, t0, raw, nows, r, floats, []), at, f)
                   == Value(WithoutThem(split, t0, raw, nows, r, floats), at, f) {
      DeletionElsewhere(split, t0, raw, nows, r, floats, [], at, f);
    }
  }

  /** The deletion restores a field of the buckets exactly when the deleted records add up, in that field,
      to the number deleted times the value given, or fall short of it in buckets they had to themselves, or
      have no buckets. */
  lemma DeletionRestoresExactlyWhen(split: Splitter, t0: Table, raw: seq<RawRecord>, nows: seq<int>, r: RawRecord,
                                    floats: set<nat>, bs: seq<Bucket>, f: nat)
    requires Setting(split, t0, raw, nows, r, floats, bs)
    ensures var s, expected := DeletedSum(raw, r, floats, f),
      Portion(Field(r.values + [1.0], f), Deleted(raw, r, floats) as real);
      Restores(split, t0, raw, nows, r, floats, bs, f) <==>
      (bs == [] || s == expected || (s < expected && Alone(split, t0, raw, nows, r, floats, bs, f)))
  {
    if bs == [] {
      NothingToDelete(split, t0, raw, nows, r, floats, f);
      return;
    }
    var s, n, v := DeletedSum(raw, r, floats, f), Deleted(raw, r, floats) as real, Field(r.values + [1.0], f);
    var after, kept := AfterDeletion(split, t0, raw, nows, r, floats, bs), WithoutThem(split, t0, raw, nows, r, floats);
    if Restores(split, t0, raw, nows, r, floats, bs, f) {
      forall b | b in bs ensures Settles(s, v, n, Value(kept, BucketKey(b.start, b.width, r.keys), f)) {
        var i :| 0 <= i < |bs| && bs[i] == b;
        BucketSettles(split, t0, raw, nows, r, floats, bs, i, f);
      }
      assert bs[0] in bs;
    }
    if s == Portion(v, n) || (s < Portion(v, n) && Alone(split, t0, raw, nows, r, floats, bs, f)) {
      forall at ensures Value(after, at, f) == Value(kept, at, f) {
        if i :| 0 <= i < |bs| && at == BucketKey(bs[i].start, bs[i].width, r.keys) {
          assert bs[i] in bs;
          BucketSettles(split, t0, raw, nows, r, floats, bs, i, f);
        } else {
          DeletionElsewhere(split, t0, raw, nows, r, floats, bs, at, f);
        }
      }
    }
  }

  function Repeated(v: real, n: nat): real {
    if n == 0 then 0.0 else v + Repeated(v, n - 1)
  }

  lemma {:induction false} RepeatedIsProduct(v: real, n: nat)
    ensures Repeated(v, n) == Portion(v, n as real)
  {
    if n > 0 {
      RepeatedIsProduct(v, n - 1);
      PortionOneMore(v, (n - 1) as real);
      assert n as real == (n - 1) as real + 1.0;
    }
  }

  lemma SameField(r: RawRecord, x: RawRecord, floats: set<nat>, f: nat)
    requires Same(r, x, floats) && f !in floats
    ensures Field(x.values + [1.0], f) == Field(r.values + [1.0], f)
  {}

  lemma DeletionStep(raw: seq<RawRecord>, r: RawRecord, floats: set<nat>, f: nat)
    requires raw != []
    ensures Same(r, raw[0], floats) ==>
      && Deleted(raw, r, floats) == Deleted(raw[1..], r, floats) + 1
      && DeletedSum(raw, r, floats, f) == Field(raw[0].values + [1.0], f) + DeletedSum(raw[1..], r, floats, f)
    ensures !Same(r, raw[0], floats) ==>
      && Deleted(raw, r, floats) == Deleted(raw[1..], r, floats)
      && DeletedSum(raw, r, floats, f) == DeletedSum(raw[1..], r, floats, f)
  {}

  /** Fields that are not FLOAT, and the number of entries, always add up. */
  lemma {:induction false} ExactFieldsAddUp(raw: seq<RawRecord>, r: RawRecord, floats: set<nat>, f: nat)
    requires f !in floats
    ensures DeletedSum(raw, r, floats, f) == Repeated(Field(r.values + [1.0], f), Deleted(raw, r, floats))
    decreases |raw|
  {
    if raw != [] {
      ExactFieldsAddUp(raw[1..], r, floats, f);
      DeletionStep(raw, r, floats, f);
      if Same(r, raw[0], floats) {
        SameField(r, raw[0], floats, f);
      }
    }
  }

  lemma ExactFieldRestored(split: Splitter, t0: Table, raw: seq<RawRecord>, nows: seq<int>, r: RawRecord,
                           floats: set<nat>, bs: seq<Bucket>, f: nat)
    requires Setting(split, t0, raw, nows, r, floats, bs) && f !in floats
    ensures Restores(split, t0, raw, nows, r, floats, bs, f)
  {
    ExactFieldsAddUp(raw, r, floats, f);
    RepeatedIsProduct(Field(r.values + [1.0], f), Deleted(raw, r, floats));
    DeletionRestoresExactlyWhen(split, t0, raw, nows, r, floats, bs, f);
  }

  lemma ProgramSetting(cfg: seq<Granularity>, t0: Table, raw: seq<RawRecord>, nows: seq<int>, r: RawRecord,
                       floats: set<nat>, epoch: int)
    requires Usable(cfg) && |raw| == |nows| && Deleted(raw, r, floats) > 0
    requires NonNegative(t0) && NonNegativeValues(raw)
    requires AllSplitIn(SplitBy(cfg), raw, nows, r, floats, BucketsOf(cfg, epoch, r.start, r.end))
    ensures Setting(SplitBy(cfg), t0, raw, nows, r, floats, BucketsOf(cfg, epoch, r.start, r.end))
  {
    BucketsAreProper(cfg, epoch, r.start, r.end);
    forall x | x in Inserted(raw, nows) ensures Proper(SplitBy(cfg)(x)) {
      BucketsAreProper(cfg, x.now, x.entry.start, x.entry.end);
    }
  }

  /** Deleting undoes inserting: when every copy was split in the buckets the deletion computes, the
      buckets end up, in every field but the FLOAT ones, as if the copies had never been inserted,
      whatever else was inserted before, between and after them, records that run backwards included. */
  lemma DeletionUndoesInsertion(cfg: seq<Granularity>, t0: Table, raw: seq<RawRecord>, nows: seq<int>, r: RawRecord,
                                floats: set<nat>, epoch: int, f: nat)
    requires Usable(cfg) && |raw| == |nows| && f !in floats && Deleted(raw, r, floats) > 0
    requires NonNegative(t0) && NonNegativeValues(raw)
    requires AllSplitIn(SplitBy(cfg), raw, nows, r, floats, BucketsOf(cfg, epoch, r.start, r.end))
    ensures Restores(SplitBy(cfg), t0, raw, nows, r, floats, BucketsOf(cfg, epoch, r.start, r.end), f)
  {
    ProgramSetting(cfg, t0, raw, nows, r, floats, epoch);
    ExactFieldRestored(SplitBy(cfg), t0, raw, nows, r, floats, BucketsOf(cfg, epoch, r.start, r.end), f);
  }

  lemma BucketsAreProper(cfg: seq<Granularity>, now: int, start: int, end: int)
    requires Usable(cfg)
    ensures Proper(BucketsOf(cfg, now, start, end))
  {
    if end < start {
      ReversedRecord(cfg, now, start, end);
    } else {
      ForwardIsProper(cfg, now, start, end);
    }
  }

  lemma ForwardIsProper(cfg: seq<Granularity>, now: int, start: int, end: int)
    requires Usable(cfg) && start <= end
    ensures Proper(BucketsOf(cfg, now, start, end))
  {
    var bs := BucketsOf(cfg, now, start, end);
    RecordIsTiled(cfg, now, start, end);
    BucketsRise(cfg, now, start, end);
    if start < end {
      forall b | b in bs ensures b.proportion > 0.0 {
        assert HoldsShare(b, start, end);
        PositiveQuotient(Overlap(b.start, b.End(), start, end), end - start);
      }
    } else {
      assert bs == [bs[0]];
    }
  }

  /** A FLOAT field goes wrong: of two records that differ only in such a field, 1 and 3, both are deleted as
      copies of the first, and the buckets keep 2 of the field. */
  lemma FloatFieldNotRestored(r: RawRecord, other: RawRecord, key: int, when: int, cfg: seq<Granularity>, now: int)
    requires r == RawRecord([key], [1.0], when, when) && other == RawRecord([key], [3.0], when, when) && Usable(cfg)
    ensures Deleted([r, other], r, {0}) == 2
    ensures !Restores(SplitBy(cfg), map[], [r, other], [now, now], r, {0}, BucketsOf(cfg, now, when, when), 0)
  {
    var raw := [r, other];
    TwoDeleted(r, other, {0}, 0);
    assert Field(r.values + [1.0], 0) == 1.0 && Field(other.values + [1.0], 0) == 3.0;
    ProgramSetting(cfg, map[], raw, [now, now], r, {0}, now);
    ExcessNotRestored(SplitBy(cfg), map[], raw, [now, now], r, {0}, BucketsOf(cfg, now, when, when), 0);
  }

  lemma TwoDeleted(r: RawRecord, other: RawRecord, floats: set<nat>, f: nat)
    requires Same(r, other, floats)
    ensures Deleted([r, other], r, floats) == 2
    ensures DeletedSum([r, other], r, floats, f) == Field(r.values + [1.0], f) + Field(other.values + [1.0], f)
  {
    DeletionStep([r, other], r, floats, f);
    assert [r, other][1..] == [other];
    DeletionStep([other], r, floats, f);
    assert [other][1..] == [];
  }

  lemma ExcessNotRestored(split: Splitter, t0: Table, raw: seq<RawRecord>, nows: seq<int>, r: RawRecord,
                          floats: set<nat>, bs: seq<Bucket>, f: nat)
    requires Setting(split, t0, raw, nows, r, floats, bs) && bs != []
    requires DeletedSum(raw, r, floats, f) > Portion(Field(r.values + [1.0], f), Deleted(raw, r, floats) as real)
    ensures !Restores(split, t0, raw, nows, r, floats, bs, f)
  {
    DeletionRestoresExactlyWhen(split, t0, raw, nows, r, floats, bs, f);
  }
}
