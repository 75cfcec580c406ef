/** Compaction of the bucket table: rows too old for their width are split again, in wider buckets. */
module Compaction {
  import opened Granularities
  import opened Remainders
  import opened Buckets
  import opened BucketTables
  import opened Grouping
  import opened Sums

  const QUERY_SIZE := 10000

  /** One round: the rows selected, and the clock reading at which each is bucketed again. */
  datatype Round = Round(records: seq<Record>, nows: seq<int>) {
    ghost predicate From(t: Table) {
      |nows| == |records| && RecordsOf(t, records)
    }

    function Entries(): seq<Timed> {
      if |nows| == |records| then TimedEntries(RowEntries(records), nows) else []
    }
  }

  /** A row as an entry of its own, over the time its bucket spans. */
  function EntryOf(r: Record): Entry {
    Entry(r.key.keys, r.row, r.key.start, r.key.start + r.key.width)
  }

  function RowEntries(records: seq<Record>): seq<Entry> {
    seq(|records|, i requires 0 <= i < |records| => EntryOf(records[i]))
  }

  /** A round of slow compaction: the rows are deleted, then split again one by one. */
  function SlowRound(split: Splitter, t: Table, r: Round): Table {
    SpreadAll(split, t - KeysOf(r.records), r.Entries())
  }

  function SlowRounds(split: Splitter, t: Table, rounds: seq<Round>): Table
    decreases |rounds|
  {
    if rounds == [] then t else SlowRounds(split, SlowRound(split, t, rounds[0]), rounds[1..])
  }

  /** Every round starts from distinct rows of the table it finds. */
  ghost predicate RoundsFrom(split: Splitter, t: Table, rounds: seq<Round>)
    decreases |rounds|
  {
    rounds == [] || (rounds[0].From(t) && RoundsFrom(split, SlowRound(split, t, rounds[0]), rounds[1..]))
  }

  /** The rows of width `b` that are too old for it, seen from `epoch`. */
  ghost function Stale(t: Table, cfg: seq<Granularity>, b: nat, epoch: int): set<BucketKey>
    requires Usable(cfg) && b < |cfg|
  {
    set k | k in t && k.width == cfg[b].width && k.start < Limit(cfg[b], epoch)
  }

  /** The rounds take stale rows only, and lead from table `t` to table `t'`. */
  ghost predicate Compacts(cfg: seq<Granularity>, t: Table, rounds: seq<Round>, t': Table, epoch: int)
    requires Usable(cfg)
  {
    StaleRounds(cfg, t, rounds, epoch) && t' == SlowRounds(SplitBy(cfg), t, rounds)
  }

  /** No row of a width before position `b` is stale. */
  ghost predicate NoneStale(t: Table, cfg: seq<Granularity>, b: int, epoch: int)
    requires Usable(cfg) && b <= |cfg|
  {
    forall c :: 0 <= c < b ==> Stale(t, cfg, c, epoch) == {}
  }

  lemma OneMoreClean(t: Table, cfg: seq<Granularity>, b: nat, epoch: int)
    requires Usable(cfg) && b < |cfg| && NoneStale(t, cfg, b, epoch) && Stale(t, cfg, b, epoch) == {}
    ensures NoneStale(t, cfg, b + 1, epoch)
  {}

  /** Each width in turn is emptied of stale rows. What is split later can only bring stale rows of a width back
      where the limits are out of order. */
  method SlowCompactBuckets(db: BucketTable, clock: Clock, cfg: seq<Granularity>)
    returns (ghost epoch: int, ghost rounds: seq<Round>)
    requires Widening(cfg)
    modifies db, clock
    ensures old(clock.time) <= epoch
    ensures Settled(cfg) ==> NoneStale(db.rows, cfg, |cfg| - 1, epoch)
    ensures |cfg| > 1 ==> Stale(db.rows, cfg, |cfg| - 2, epoch) == {}
    ensures Compacts(cfg, old(db.rows), rounds, db.rows, epoch)
  {
    var nowEpoch := clock.Now();
    epoch := nowEpoch;
    rounds := [];
    var bPos := 0;
    while bPos < |cfg| - 1
      invariant (bPos == 0 || bPos < |cfg|) && epoch == nowEpoch <= clock.time
      invariant Settled(cfg) ==> NoneStale(db.rows, cfg, bPos, epoch)
      invariant bPos > 0 ==> Stale(db.rows, cfg, bPos - 1, epoch) == {}
      invariant Compacts(cfg, old(db.rows), rounds, db.rows, epoch)
    {
      ghost var more := CompactWidth(db, clock, cfg, bPos, nowEpoch);
      RoundsConcat(cfg, old(db.rows), rounds, more, epoch);
      rounds := rounds + more;
      if Settled(cfg) { OneMoreClean(db.rows, cfg, bPos, epoch); }
      bPos := bPos + 1;
    }
  }

  /** The inner loop: batch after batch until one is not full. */
  method CompactWidth(db: BucketTable, clock: Clock, cfg: seq<Granularity>, b: nat, nowEpoch: int)
    returns (ghost rounds: seq<Round>)
    requires Widening(cfg) && b < |cfg| - 1 && nowEpoch <= clock.time
    modifies db, clock
    ensures nowEpoch <= clock.time && Compacts(cfg, old(db.rows), rounds, db.rows, nowEpoch)
    ensures Stale(db.rows, cfg, b, nowEpoch) == {}
    ensures Settled(cfg) && NoneStale(old(db.rows), cfg, b, nowEpoch) ==> NoneStale(db.rows, cfg, b, nowEpoch)
  {
    rounds := [];
    var previousRecordsSelected := QUERY_SIZE;
    while previousRecordsSelected == QUERY_SIZE
      invariant nowEpoch <= clock.time && previousRecordsSelected <= QUERY_SIZE
      invariant Settled(cfg) && NoneStale(old(db.rows), cfg, b, nowEpoch) ==> NoneStale(db.rows, cfg, b, nowEpoch)
      invariant Compacts(cfg, old(db.rows), rounds, db.rows, nowEpoch)
      invariant previousRecordsSelected < QUERY_SIZE ==> Stale(db.rows, cfg, b, nowEpoch) == {}
      decreases |Stale(db.rows, cfg, b, nowEpoch)|, previousRecordsSelected
    {
      ghost var round;
      ghost var before := db.rows;
      previousRecordsSelected, round := CompactSelection(db, clock, cfg, b, nowEpoch);
      if previousRecordsSelected == 0 {
        break;
      }
      OneRound(cfg, before, round, nowEpoch);
      RoundsConcat(cfg, old(db.rows), rounds, [round], nowEpoch);
      rounds := rounds + [round];
    }
  }

  /** Selects a batch of stale rows of width `b`, deletes them and splits them again. */
  method CompactSelection(db: BucketTable, clock: Clock, cfg: seq<Granularity>, b: nat, nowEpoch: int)
    returns (selected: nat, ghost round: Round)
    requires Widening(cfg) && b < |cfg| - 1 && nowEpoch <= clock.time
    modifies db, clock
    ensures nowEpoch <= clock.time && selected <= QUERY_SIZE
    ensures selected == 0 ==> db.rows == old(db.rows)
    ensures selected > 0 ==>
      && round.From(old(db.rows)) && StaleRound(cfg, old(db.rows), round, nowEpoch)
      && db.rows == SlowRound(SplitBy(cfg), old(db.rows), round)
      && |Stale(db.rows, cfg, b, nowEpoch)| < |Stale(old(db.rows), cfg, b, nowEpoch)|
    ensures Settled(cfg) && NoneStale(old(db.rows), cfg, b, nowEpoch) ==> NoneStale(db.rows, cfg, b, nowEpoch)
    ensures selected < QUERY_SIZE ==> Stale(db.rows, cfg, b, nowEpoch) == {}
  {
    ghost var before := db.rows;
    var width := cfg[b].width;
    var timeLimit := (nowEpoch - Mod(nowEpoch, width)) - cfg[b].span;
    var records := db.SelectIndividual(timeLimit, width, QUERY_SIZE);
    selected := |records|;
    round := Round([], []);
    if selected > 0 {
      db.DeleteIndividual(records);
      ghost var nows := SplitAll(db, clock, cfg, RowEntries(records));
      round := Round(records, nows);
      RoundKeepsNarrower(cfg, before, round, b, nowEpoch);
      RoundTakesSome(cfg, before, round, b, nowEpoch);
    }
    if selected < QUERY_SIZE { AllSelected(before, records, Stale(before, cfg, b, nowEpoch)); }
  }

  lemma RoundTakesSome(cfg: seq<Granularity>, t: Table, round: Round, b: nat, epoch: int)
    requires Widening(cfg) && b < |cfg| - 1 && TakesStale(cfg, t, round, b, epoch) && round.records != []
    ensures var after := SlowRound(SplitBy(cfg), t, round);
      && Stale(after, cfg, b, epoch) <= Stale(t, cfg, b, epoch) - KeysOf(round.records)
      && |Stale(after, cfg, b, epoch)| < |Stale(t, cfg, b, epoch)|
  {
    RoundShrinksOwn(cfg, t, round, b, epoch);
    assert round.records[0].key in KeysOf(round.records);
    Shrinks(Stale(SlowRound(SplitBy(cfg), t, round), cfg, b, epoch), Stale(t, cfg, b, epoch), round.records[0].key);
  }

  lemma AllSelected(t: Table, records: seq<Record>, keys: set<BucketKey>)
    requires forall k :: k in keys ==> k in t && Record(k, t[k]) in records
    ensures keys <= KeysOf(records)
  {
    forall k | k in keys ensures k in KeysOf(records) {
      assert Record(k, t[k]) in records;
    }
  }

  lemma Shrinks(small: set<BucketKey>, large: set<BucketKey>, k: BucketKey)
    requires small <= large && k in large && k !in small
    ensures |small| < |large|
  {
    assert small <= large - {k};
    SubsetSize(small, large - {k});
  }

  lemma {:induction false} SubsetSize(small: set<BucketKey>, large: set<BucketKey>)
    requires small <= large
    ensures |small| <= |large|
    decreases small
  {
    if small != {} {
      var k :| k in small;
      SubsetSize(small - {k}, large - {k});
    }
  }

  /** Every row a round selects is stale. */
  ghost predicate StaleRound(cfg: seq<Granularity>, t: Table, round: Round, epoch: int)
    requires Usable(cfg)
  {
    && (forall now :: now in round.nows ==> now >= epoch)
    && (forall r :: r in round.records ==> exists b :: 0 <= b < |cfg| - 1 && r.key in Stale(t, cfg, b, epoch))
  }

  ghost predicate StaleRounds(cfg: seq<Granularity>, t: Table, rounds: seq<Round>, epoch: int)
    requires Usable(cfg)
    decreases |rounds|
  {
    rounds == [] || (
      && rounds[0].From(t)
      && StaleRound(cfg, t, rounds[0], epoch)
      && StaleRounds(cfg, SlowRound(SplitBy(cfg), t, rounds[0]), rounds[1..], epoch))
  }

  lemma OneRound(cfg: seq<Granularity>, t: Table, round: Round, epoch: int)
    requires Usable(cfg) && round.From(t) && StaleRound(cfg, t, round, epoch)
    ensures Compacts(cfg, t, [round], SlowRound(SplitBy(cfg), t, round), epoch)
  {
    assert [round][1..] == [];
  }

  lemma {:induction false} RoundsConcat(cfg: seq<Granularity>, t: Table, one: seq<Round>, two: seq<Round>, epoch: int)
    requires Usable(cfg) && StaleRounds(cfg, t, one, epoch)
    requires StaleRounds(cfg, SlowRounds(SplitBy(cfg), t, one), two, epoch)
    ensures Compacts(cfg, t, one + two, SlowRounds(SplitBy(cfg), SlowRounds(SplitBy(cfg), t, one), two), epoch)
    decreases |one|
  {
    if one == [] {
      assert one + two == two;
    } else {
      assert (one + two)[1..] == one[1..] + two;
      RoundsConcat(cfg, SlowRound(SplitBy(cfg), t, one[0]), one[1..], two, epoch);
    }
  }

  /** In a settled configuration the buckets a stale row is split in are never stale for its own width or a
      narrower one. */
  lemma StalePieces(cfg: seq<Granularity>, b: nat, c: nat, epoch: int, now: int, start: int, end: int)
    requires Settled(cfg) && c <= b < |cfg| - 1 && epoch <= now && start < Limit(cfg[b], epoch) && start <= end
    ensures forall p :: p in BucketsOf(cfg, now, start, end) && p.start < Limit(cfg[c], epoch) ==>
      p.width > cfg[c].width
  {
    var bs := BucketsOf(cfg, now, start, end);
    RecordIsTiled(cfg, now, start, end);
    forall p | p in bs && p.start < Limit(cfg[c], epoch) ensures p.width > cfg[c].width {
      var i :| 0 <= i < |bs| && bs[i] == p;
      if i == 0 {
        OlderThanLimit(cfg, b, epoch, now, start);
      } else {
        OlderThanLimit(cfg, c, epoch, now, p.start);
      }
    }
  }

  /** A moment before the limit of position `b` never gets its width again, in any order of limits. */
  lemma WidthIsOver(cfg: seq<Granularity>, b: nat, epoch: int, now: int, when: int)
    requires Widening(cfg) && b < |cfg| - 1 && epoch <= now && when < Limit(cfg[b], epoch)
    ensures LengthForTime(cfg, now, when) != cfg[b].width
  {
    FloorMonotone(epoch, now, cfg[b].width);
    FirstCoveringIs(cfg, now, when, 0);
    CoversFromLimit(cfg[b], now, when);
    var i := FirstCovering(cfg, now, when, 0);
    assert i != b && cfg[b].width < cfg[|cfg| - 1].width;
  }

  /** So what a stale row is split in is never stale for its own width. */
  lemma OwnWidthIsOver(cfg: seq<Granularity>, b: nat, epoch: int, now: int, start: int, end: int)
    requires Widening(cfg) && b < |cfg| - 1 && epoch <= now && start < Limit(cfg[b], epoch) && start <= end
    ensures forall p :: p in BucketsOf(cfg, now, start, end) && p.start < Limit(cfg[b], epoch) ==>
      p.width != cfg[b].width
  {
    var bs := BucketsOf(cfg, now, start, end);
    RecordIsTiled(cfg, now, start, end);
    forall p | p in bs && p.start < Limit(cfg[b], epoch) ensures p.width != cfg[b].width {
      var i :| 0 <= i < |bs| && bs[i] == p;
      WidthIsOver(cfg, b, epoch, now, if i == 0 then start else p.start);
    }
  }

  ghost predicate TakesStale(cfg: seq<Granularity>, t: Table, round: Round, b: nat, epoch: int)
    requires Usable(cfg) && b < |cfg|
  {
    && |round.nows| == |round.records|
    && (forall now :: now in round.nows ==> now >= epoch)
    && (forall r :: r in round.records ==> r.key in Stale(t, cfg, b, epoch))
  }

  /** A round over stale rows of width `b` takes those rows out and brings in none. */
  lemma RoundShrinksOwn(cfg: seq<Granularity>, t: Table, round: Round, b: nat, epoch: int)
    requires Widening(cfg) && b < |cfg| - 1 && TakesStale(cfg, t, round, b, epoch)
    ensures Stale(SlowRound(SplitBy(cfg), t, round), cfg, b, epoch) <= Stale(t, cfg, b, epoch) - KeysOf(round.records)
  {
    var xs := round.Entries();
    forall x, p | x in xs && p in SplitBy(cfg)(x) && p.start < Limit(cfg[b], epoch) ensures p.width != cfg[b].width {
      var i :| 0 <= i < |xs| && xs[i] == x;
      assert round.records[i] in round.records && round.nows[i] in round.nows;
      OwnWidthIsOver(cfg, b, epoch, x.now, x.entry.start, x.entry.end);
    }
    SpreadStale(cfg, t - KeysOf(round.records), xs, b, epoch);
  }

  /** In a settled configuration it brings in no stale row of a narrower width either. */
  lemma RoundShrinksStale(cfg: seq<Granularity>, t: Table, round: Round, b: nat, c: nat, epoch: int)
    requires Settled(cfg) && c <= b < |cfg| - 1 && TakesStale(cfg, t, round, b, epoch)
    ensures Stale(SlowRound(SplitBy(cfg), t, round), cfg, c, epoch) <= Stale(t, cfg, c, epoch) - KeysOf(round.records)
  {
    var xs := round.Entries();
    forall x, p | x in xs && p in SplitBy(cfg)(x) && p.start < Limit(cfg[c], epoch) ensures p.width != cfg[c].width {
      var i :| 0 <= i < |xs| && xs[i] == x;
      assert round.records[i] in round.records && round.nows[i] in round.nows;
      StalePieces(cfg, b, c, epoch, x.now, x.entry.start, x.entry.end);
    }
    SpreadStale(cfg, t - KeysOf(round.records), xs, c, epoch);
  }

  lemma RoundKeepsNarrower(cfg: seq<Granularity>, t: Table, round: Round, b: nat, epoch: int)
    requires Widening(cfg) && b < |cfg| - 1 && TakesStale(cfg, t, round, b, epoch)
    ensures Settled(cfg) && NoneStale(t, cfg, b, epoch) ==> NoneStale(SlowRound(SplitBy(cfg), t, round), cfg, b, epoch)
  {
    if Settled(cfg) && NoneStale(t, cfg, b, epoch) {
      forall c | 0 <= c < b ensures Stale(SlowRound(SplitBy(cfg), t, round), cfg, c, epoch) == {} {
        RoundShrinksStale(cfg, t, round, b, c, epoch);
      }
    }
  }

  lemma {:induction false} SpreadStale(cfg: seq<Granularity>, t: Table, xs: seq<Timed>, c: nat, epoch: int)
    requires Usable(cfg) && c < |cfg|
    requires forall x, p :: x in xs && p in SplitBy(cfg)(x) && p.start < Limit(cfg[c], epoch) ==>
      p.width != cfg[c].width
    ensures Stale(SpreadAll(SplitBy(cfg), t, xs), cfg, c, epoch) <= Stale(t, cfg, c, epoch)
    decreases |xs|
  {
    if xs != [] {
      var x := xs[0];
      assert x in xs && forall y :: y in xs[1..] ==> y in xs;
      KeysOfWriteAll(t, SplitBy(cfg)(x), x.entry.keys, x.entry.row);
      SpreadStale(cfg, Spread(SplitBy(cfg), t, x), xs[1..], c, epoch);
    }
  }

  lemma {:induction false} StaleRoundsAreRounds(cfg: seq<Granularity>, t: Table, rounds: seq<Round>, epoch: int)
    requires Usable(cfg) && StaleRounds(cfg, t, rounds, epoch)
    ensures RoundsFrom(SplitBy(cfg), t, rounds)
    decreases |rounds|
  {
    if rounds != [] {
      StaleRoundsAreRounds(cfg, SlowRound(SplitBy(cfg), t, rounds[0]), rounds[1..], epoch);
    }
  }

  // What a round keeps.

  /** A round moves the totals of a selector by what leaves it and what enters it: nothing, when every
      moved row and all of its buckets are on the same side. */
  lemma RoundConserves(split: Splitter, t: Table, round: Round,
                       sel: BucketKey -> bool, picks: Timed -> bool, f: nat)
    requires round.From(t) && Whole(split, round.Entries())
    requires forall x :: x in round.Entries() ==> Respects(split, x, sel, picks)
    requires forall i :: 0 <= i < |round.records| ==> picks(round.Entries()[i]) == sel(round.records[i].key)
    ensures Total(SlowRound(split, t, round), sel, f) == Total(t, sel, f)
  {
    TotalOfRemoval(t, KeysOf(round.records), sel, f);
    RemovedAmount(t, round.records, sel, f);
    SpreadingConserves(split, t - KeysOf(round.records), round.Entries(), sel, picks, f);
    SeqSumMapped(round.records, round.Entries(), PickedRecord(sel, f), Amount(picks, f));
  }

  lemma RoundIsForward(t: Table, round: Round)
    requires PositiveWidths(t) && round.From(t)
    ensures Forward(round.Entries())
  {}

  /** Every row of a round is split over the time that its bucket spanned, at the clock reading of the row. */
  lemma RowsAreTiled(cfg: seq<Granularity>, t: Table, round: Round, i: nat)
    requires Usable(cfg) && PositiveWidths(t) && round.From(t) && i < |round.records|
    ensures |round.Entries()| == |round.records|
    ensures var k, x := round.records[i].key, round.Entries()[i];
      && x.entry.keys == k.keys && x.entry.row == round.records[i].row && x.now == round.nows[i]
      && Tiles(SplitBy(cfg)(x), k.start, k.start + k.width)
      && WidthsFit(cfg, round.nows[i], k.start, SplitBy(cfg)(x))
  {
    var k := round.records[i].key;
    assert round.records[i] in round.records;
    RecordIsTiled(cfg, round.nows[i], k.start, k.start + k.width);
  }

  /** A row that is moved, and the clock reading at which it is. */
  datatype Move = Move(record: Record, now: int)

  function Moves(round: Round): seq<Move>
    requires |round.nows| == |round.records|
  {
    seq(|round.records|, i requires 0 <= i < |round.records| => Move(round.records[i], round.nows[i]))
  }

  /** What a moved row brings to bucket `at`: where the bucket is one of those over the time of the row, the field times
      the part of that time that falls in it. */
  function MovedTo(cfg: seq<Granularity>, at: BucketKey, f: nat): Move -> real
    requires Usable(cfg)
  {
    (m: Move) =>
      var k := m.record.key;
      if at.keys == k.keys && Meets(BucketsOf(cfg, m.now, k.start, k.start + k.width), at)
      then Portion(Field(m.record.row, f), ShareIn(at, k.start, k.start + k.width))
      else 0.0
  }

  /** After a round every bucket holds what it held if it was not selected, and its part of each selected row. */
  lemma RoundMovesRows(cfg: seq<Granularity>, t: Table, round: Round, at: BucketKey, f: nat)
    requires Usable(cfg) && PositiveWidths(t) && round.From(t)
    ensures Value(SlowRound(SplitBy(cfg), t, round), at, f)
         == (if at in KeysOf(round.records) then 0.0 else Value(t, at, f)) + SeqSum(Moves(round), MovedTo(cfg, at, f))
  {
    var xs := round.Entries();
    TableIsSum(SplitBy(cfg), t - KeysOf(round.records), xs, at, f);
    forall i | 0 <= i < |xs|
      ensures ContributionTo(SplitBy(cfg), at, f)(xs[i]) == MovedTo(cfg, at, f)(Moves(round)[i])
    {
      assert round.records[i] in round.records;
      EntryBrings(cfg, xs[i], at, f);
    }
    SeqSumMapped(xs, Moves(round), ContributionTo(SplitBy(cfg), at, f), MovedTo(cfg, at, f));
  }

  /** Slow compaction keeps every total per key fields, for any configuration and any clock. */
  lemma {:induction false} SlowCompactionConserves(cfg: seq<Granularity>, t: Table, rounds: seq<Round>,
                                                   keys: seq<int>, f: nat)
    requires Usable(cfg) && PositiveWidths(t) && RoundsFrom(SplitBy(cfg), t, rounds)
    ensures Total(SlowRounds(SplitBy(cfg), t, rounds), WithKeys(keys), f) == Total(t, WithKeys(keys), f)
    ensures PositiveWidths(SlowRounds(SplitBy(cfg), t, rounds))
    decreases |rounds|
  {
    if rounds != [] {
      var split, round := SplitBy(cfg), rounds[0];
      RoundIsForward(t, round);
      ForwardIsWhole(cfg, round.Entries());
      RoundConserves(split, t, round, WithKeys(keys), OfKeys(keys), f);
      SpreadAllShape(cfg, t - KeysOf(round.records), round.Entries());
      SlowCompactionConserves(cfg, SlowRound(split, t, round), rounds[1..], keys, f);
    }
  }

  lemma {:induction false} SpreadAllShape(cfg: seq<Granularity>, t: Table, xs: seq<Timed>)
    requires Usable(cfg)
    ensures PositiveWidths(t) ==> PositiveWidths(SpreadAll(SplitBy(cfg), t, xs))
    ensures Chain(cfg) && AlignedRows(t) ==> AlignedRows(SpreadAll(SplitBy(cfg), t, xs))
    decreases |xs|
  {
    if xs != [] {
      SpreadShape(cfg, t, xs[0]);
      SpreadAllShape(cfg, Spread(SplitBy(cfg), t, xs[0]), xs[1..]);
    }
  }

  /** Along a chain, a stale aligned row moves whole into one strictly wider bucket, which holds it. */
  lemma StaleRowMovesWhole(cfg: seq<Granularity>, b: nat, epoch: int, now: int, start: int)
    requires Chain(cfg) && b < |cfg| - 1 && epoch <= now && start < Limit(cfg[b], epoch)
    requires Divides(cfg[b].width, start)
    ensures var wide := LengthForTime(cfg, now, start);
      && wide > cfg[b].width && Divides(cfg[b].width, wide) && Divides(wide, MAX_BUCKET_TIME)
      && start + cfg[b].width <= Floor(start, wide) + wide
      && BucketsOf(cfg, now, start, start + cfg[b].width) == [Bucket(Floor(start, wide), 1.0, wide)]
  {
    var width, wide := cfg[b].width, LengthForTime(cfg, now, start);
    ChainIsSettled(cfg);
    OlderThanLimit(cfg, b, epoch, now, start);
    var i := FirstCovering(cfg, now, start, 0);
    ChainDivides(cfg, b, i);
    ChainDivides(cfg, i, |cfg|);
    CellHoldsSpan(start, width, wide);
    SingleBucket(cfg, now, start, start + width);
  }

  lemma RowStaysInWeek(cfg: seq<Granularity>, b: nat, epoch: int, r: Record, now: int, keys: seq<int>, week: int)
    requires Chain(cfg) && b < |cfg| - 1 && epoch <= now
    requires r.key.width == cfg[b].width && Divides(cfg[b].width, r.key.start)
    requires r.key.start < Limit(cfg[b], epoch)
    ensures Respects(SplitBy(cfg), Timed(EntryOf(r), now), InWeek(keys, week), OfWeek(keys, week))
  {
    StaleRowMovesWhole(cfg, b, epoch, now, r.key.start);
    FloorNested(r.key.start, LengthForTime(cfg, now, r.key.start), MAX_BUCKET_TIME);
  }

  lemma RoundStaysInWeeks(cfg: seq<Granularity>, t: Table, round: Round, epoch: int, keys: seq<int>, week: int)
    requires Chain(cfg) && AlignedRows(t) && round.From(t) && StaleRound(cfg, t, round, epoch)
    ensures forall x :: x in round.Entries() ==> Respects(SplitBy(cfg), x, InWeek(keys, week), OfWeek(keys, week))
  {
    forall x | x in round.Entries() ensures Respects(SplitBy(cfg), x, InWeek(keys, week), OfWeek(keys, week)) {
      var i :| 0 <= i < |round.records| && x == Timed(EntryOf(round.records[i]), round.nows[i]);
      var r := round.records[i];
      assert r in round.records && round.nows[i] in round.nows;
      var b :| 0 <= b < |cfg| - 1 && r.key in Stale(t, cfg, b, epoch);
      RowStaysInWeek(cfg, b, epoch, r, round.nows[i], keys, week);
    }
  }

  /** Along a chain, slow compaction keeps the table aligned and never moves a value out of its week. */
  lemma {:induction false} SlowCompactionKeepsWeeks(cfg: seq<Granularity>, t: Table, rounds: seq<Round>, epoch: int,
                                                    keys: seq<int>, week: int, f: nat)
    requires Chain(cfg) && AlignedRows(t) && StaleRounds(cfg, t, rounds, epoch)
    ensures AlignedRows(SlowRounds(SplitBy(cfg), t, rounds))
    ensures Total(SlowRounds(SplitBy(cfg), t, rounds), InWeek(keys, week), f) == Total(t, InWeek(keys, week), f)
    decreases |rounds|
  {
    if rounds != [] {
      var split, round := SplitBy(cfg), rounds[0];
      RoundIsForward(t, round);
      ForwardIsWhole(cfg, round.Entries());
      RoundStaysInWeeks(cfg, t, round, epoch, keys, week);
      RoundConserves(split, t, round, InWeek(keys, week), OfWeek(keys, week), f);
      SpreadAllShape(cfg, t - KeysOf(round.records), round.Entries());
      SlowCompactionKeepsWeeks(cfg, SlowRound(split, t, round), rounds[1..], epoch, keys, week, f);
    }
  }

  // The fast routine: stale rows of a width are summed per wider bucket, deleted, and the sums split.

  /** How the fast query reads a row; the time span of a group ends at its last start. */
  function RowReading(): Reading<Record> {
    Reading((r: Record) => r.key.keys, (r: Record) => r.row, (r: Record) => r.key.start, (r: Record) => r.key.start)
  }

  function NextBucket(next: int): Record -> (int, seq<int>)
    requires next > 0
  {
    (r: Record) => (Floor(r.key.start, next), r.key.keys)
  }

  /** The selected rows are exactly the stale rows of width `b`, each once. */
  ghost predicate SelectsStale(cfg: seq<Granularity>, t: Table, b: nat, epoch: int, records: seq<Record>)
    requires Usable(cfg) && b < |cfg|
  {
    RecordsOf(t, records) && KeysOf(records) == Stale(t, cfg, b, epoch)
  }

  function GroupEntries(groups: seq<seq<Record>>): seq<Entry>
    requires forall i :: 0 <= i < |groups| ==> groups[i] != []
  {
    seq(|groups|, i requires 0 <= i < |groups| => GroupEntry(groups[i], RowReading()))
  }

  function FastPass(split: Splitter, t: Table, records: seq<Record>, groups: seq<seq<Record>>, nows: seq<int>): Table
    requires |groups| == |nows| && forall i :: 0 <= i < |groups| ==> groups[i] != []
  {
    SpreadAll(split, t - KeysOf(records), TimedEntries(GroupEntries(groups), nows))
  }

  method FastCompactWidth(db: BucketTable, clock: Clock, cfg: seq<Granularity>, b: nat, nowEpoch: int)
    returns (ghost records: seq<Record>, ghost groups: seq<seq<Record>>, ghost nows: seq<int>)
    requires Widening(cfg) && b + 1 < |cfg|
    modifies db, clock
    ensures SelectsStale(cfg, old(db.rows), b, nowEpoch, records)
    ensures IsGrouping(groups, records, NextBucket(cfg[b + 1].width)) && |nows| == |groups|
    ensures db.rows == FastPass(SplitBy(cfg), old(db.rows), records, groups, nows)
  {
    var selected := SelectStale(db, cfg, b, nowEpoch);
    var grouped := GroupBy(selected, NextBucket(cfg[b + 1].width));
    records, groups, nows := selected, grouped, [];
    if |grouped| == 0 {
      NoGroupsNoItems(selected, NextBucket(cfg[b + 1].width));
      assert db.rows - KeysOf(selected) == db.rows;
      return;
    }
    db.DeleteIndividual(selected);
    nows := SplitAll(db, clock, cfg, GroupEntries(grouped));
  }

  method SelectStale(db: BucketTable, cfg: seq<Granularity>, b: nat, nowEpoch: int) returns (records: seq<Record>)
    requires Usable(cfg) && b < |cfg|
    ensures SelectsStale(cfg, db.rows, b, nowEpoch, records)
  {
    var width := cfg[b].width;
    var timeLimit := (nowEpoch - Mod(nowEpoch, width)) - cfg[b].span;
    records := db.SelectIndividual(timeLimit, width, |db.rows| + 1);
    SelectionFits(db.rows, records);
    forall k | k in Stale(db.rows, cfg, b, nowEpoch) ensures k in KeysOf(records) {
      assert Record(k, db.rows[k]) in records;
    }
  }

  /** No selection of distinct rows outnumbers the table. */
  lemma SelectionFits(t: Table, records: seq<Record>)
    requires forall i, j :: 0 <= i < j < |records| ==> records[i].key != records[j].key
    requires forall r :: r in records ==> r.key in t
    ensures |records| <= |t|
  {
    DistinctKeys(records);
    SubsetSize(KeysOf(records), t.Keys);
  }

  lemma {:induction false} DistinctKeys(records: seq<Record>)
    requires forall i, j :: 0 <= i < j < |records| ==> records[i].key != records[j].key
    ensures |KeysOf(records)| == |records|
    decreases |records|
  {
    if records != [] {
      var last := |records| - 1;
      DistinctKeys(records[..last]);
      assert records == records[..last] + [records[last]];
      assert KeysOf(records) == KeysOf(records[..last]) + {records[last].key};
    }
  }

  lemma GroupsAreForward(groups: seq<seq<Record>>, nows: seq<int>)
    requires |groups| == |nows| && forall i :: 0 <= i < |groups| ==> groups[i] != []
    ensures Forward(TimedEntries(GroupEntries(groups), nows))
  {}

  /** A group of the fast routine is rows of the same key fields that start in the same bucket of the next width, and
      two groups differ in one or the other. Its sum is that of its rows, from the first of their starts to the last. */
  lemma FastGroups(groups: seq<seq<Record>>, records: seq<Record>, next: int, i: nat, nows: seq<int>)
    requires next > 0 && IsGrouping(groups, records, NextBucket(next)) && i < |groups| == |nows|
    ensures exists cell :: Divides(next, cell) && forall r :: r in groups[i] ==> cell <= r.key.start < cell + next
    ensures forall r :: r in groups[i] ==> r in records && r.key.keys == groups[i][0].key.keys
    ensures forall j :: 0 <= j < |groups| && j != i && groups[j][0].key.keys == groups[i][0].key.keys ==>
      Floor(groups[j][0].key.start, next) != Floor(groups[i][0].key.start, next)
    ensures SumsGroup(groups[i], TimedEntries(GroupEntries(groups), nows)[i], nows[i])
  {
    var g, x := groups[i], TimedEntries(GroupEntries(groups), nows)[i];
    var cell := Floor(g[0].key.start, next);
    assert x.entry == GroupEntry(g, RowReading());
    FloorIsMultiple(g[0].key.start, next);
    forall r | r in g ensures cell <= r.key.start < cell + next && r in records && r.key.keys == g[0].key.keys {
      GroupedItem(groups, records, NextBucket(next), g, r);
      assert NextBucket(next)(r) == NextBucket(next)(g[0]);
    }
    forall j | 0 <= j < |groups| && j != i && groups[j][0].key.keys == g[0].key.keys
      ensures Floor(groups[j][0].key.start, next) != cell
    {
      assert NextBucket(next)(groups[j][0]) != NextBucket(next)(g[0]);
    }
    forall f: nat ensures Field(x.entry.row, f) == SeqSum(g, RowField(f)) {
      FieldOfSumRows(g, RowReading().row, f);
      SeqSumCongruent(g, FieldOf(RowReading().row, f), RowField(f));
    }
  }

  function RowField(f: nat): Record -> real {
    (r: Record) => Field(r.row, f)
  }

  ghost predicate SumsGroup(g: seq<Record>, x: Timed, now: int)
    requires g != []
  {
    && x.now == now && x.entry.keys == g[0].key.keys
    && (forall f: nat :: Field(x.entry.row, f) == SeqSum(g, RowField(f)))
    && (forall r :: r in g ==> x.entry.start <= r.key.start <= x.entry.end)
    && (exists r :: r in g && r.key.start == x.entry.start) && (exists r :: r in g && r.key.start == x.entry.end)
  }

  /** The fast routine keeps every total per key fields too. */
  lemma FastPassConserves(cfg: seq<Granularity>, t: Table, records: seq<Record>, next: int,
                          groups: seq<seq<Record>>, nows: seq<int>, keys: seq<int>, f: nat)
    requires Usable(cfg) && RecordsOf(t, records) && next > 0
    requires IsGrouping(groups, records, NextBucket(next)) && |nows| == |groups|
    ensures Total(FastPass(SplitBy(cfg), t, records, groups, nows), WithKeys(keys), f) == Total(t, WithKeys(keys), f)
  {
    var xs := TimedEntries(GroupEntries(groups), nows);
    GroupsAreForward(groups, nows);
    ForwardIsWhole(cfg, xs);
    TotalOfRemoval(t, KeysOf(records), WithKeys(keys), f);
    RemovedAmount(t, records, WithKeys(keys), f);
    SeqSumCongruent(records, PickedRecord(WithKeys(keys), f), ItemAmount(RowReading(), keys, f));
    SpreadingConserves(SplitBy(cfg), t - KeysOf(records), xs, WithKeys(keys), OfKeys(keys), f);
    SeqSumMapped(groups, xs, GroupAmount(RowReading(), keys, f), Amount(OfKeys(keys), f));
    GroupingConserves(groups, records, NextBucket(next), RowReading(), keys, f);
  }

  // Compaction among other writers.

  /** The entries that a compaction writes back: its rows one by one, or their sums per group. */
  datatype Back = OneByOne(nows: seq<int>) | PerGroup(next: int, groups: seq<seq<Record>>, nows: seq<int>)

  ghost predicate BackFits(records: seq<Record>, back: Back) {
    match back
    case OneByOne(nows) => |nows| == |records|
    case PerGroup(next, groups, nows) => next > 0 && IsGrouping(groups, records, NextBucket(next)) && |nows| == |groups|
  }

  ghost function BackEntries(records: seq<Record>, back: Back): seq<Timed>
    requires BackFits(records, back)
  {
    match back
    case OneByOne(nows) => TimedEntries(RowEntries(records), nows)
    case PerGroup(_, groups, nows) => TimedEntries(GroupEntries(groups), nows)
  }

  lemma {:induction false} SpreadAllKeepsKeys(split: Splitter, t: Table, xs: seq<Timed>)
    ensures t.Keys <= SpreadAll(split, t, xs).Keys
    decreases |xs|
  {
    if xs != [] {
      KeysOfWriteAll(t, split(xs[0]), xs[0].entry.keys, xs[0].entry.row);
      SpreadAllKeepsKeys(split, Spread(split, t, xs[0]), xs[1..]);
    }
  }

  lemma BackIsForward(t: Table, records: seq<Record>, back: Back)
    requires PositiveWidths(t) && RecordsOf(t, records) && BackFits(records, back)
    ensures Forward(BackEntries(records, back))
  {
    if back.OneByOne? {
      RoundIsForward(t, Round(records, back.nows));
    } else {
      GroupsAreForward(back.groups, back.nows);
    }
  }

  /** What is written back is worth the rows that were selected. */
  lemma BackIsWorth(cfg: seq<Granularity>, t: Table, records: seq<Record>, back: Back, keys: seq<int>, f: nat)
    requires Usable(cfg) && PositiveWidths(t) && RecordsOf(t, records) && BackFits(records, back)
    ensures SeqSum(BackEntries(records, back), LandedAmount(SplitBy(cfg), OfKeys(keys), f))
         == Sum(KeysOf(records), Picked(t, WithKeys(keys), f))
  {
    var xs := BackEntries(records, back);
    BackIsForward(t, records, back);
    ForwardIsWhole(cfg, xs);
    SeqSumCongruent(xs, LandedAmount(SplitBy(cfg), OfKeys(keys), f), Amount(OfKeys(keys), f));
    RemovedAmount(t, records, WithKeys(keys), f);
    if back.OneByOne? {
      SeqSumMapped(records, xs, PickedRecord(WithKeys(keys), f), Amount(OfKeys(keys), f));
    } else {
      SeqSumCongruent(records, PickedRecord(WithKeys(keys), f), ItemAmount(RowReading(), keys, f));
      SeqSumMapped(back.groups, xs, GroupAmount(RowReading(), keys, f), Amount(OfKeys(keys), f));
      GroupingConserves(back.groups, records, NextBucket(back.next), RowReading(), keys, f);
    }
  }

  // Whole runs.

  /** A record is inserted; or rows are selected, other writers put entries `between` the selection and the deletion of
      the rows, and entries `others` while the rows are written back, `writes` being the two in any order. */
  datatype Change =
    | Inserted(x: Timed)
    | Compacted(records: seq<Record>, back: Back, between: seq<Timed>, others: seq<Timed>, writes: seq<Timed>)

  /** The change can happen to table `t`: any record can be inserted. */
  ghost predicate Possible(t: Table, c: Change) {
    match c
    case Inserted(x) => true
    case Compacted(records, back, between, others, writes) =>
      && RecordsOf(t, records) && BackFits(records, back)
      && multiset(writes) == multiset(BackEntries(records, back)) + multiset(others)
  }

  ghost function After(cfg: seq<Granularity>, t: Table, c: Change): Table
    requires Usable(cfg) && Possible(t, c)
  {
    var split := SplitBy(cfg);
    match c
    case Inserted(x) => Spread(split, t, x)
    case Compacted(records, _, between, _, writes) =>
      SpreadAll(split, SpreadAll(split, t, between) - KeysOf(records), writes)
  }

  /** Undisturbed, such a change is a round of slow compaction or a pass of the fast one. */
  lemma UndisturbedChange(cfg: seq<Granularity>, t: Table, records: seq<Record>, back: Back)
    requires Usable(cfg) && RecordsOf(t, records) && BackFits(records, back)
    ensures var c := Compacted(records, back, [], [], BackEntries(records, back));
      Possible(t, c) && After(cfg, t, c)
        == match back
           case OneByOne(nows) => SlowRound(SplitBy(cfg), t, Round(records, nows))
           case PerGroup(_, groups, nows) => FastPass(SplitBy(cfg), t, records, groups, nows)
  {}

  ghost predicate Run(cfg: seq<Granularity>, t: Table, changes: seq<Change>)
    requires Usable(cfg)
    decreases |changes|
  {
    changes == [] || (Possible(t, changes[0]) && Run(cfg, After(cfg, t, changes[0]), changes[1..]))
  }

  ghost function Final(cfg: seq<Granularity>, t: Table, changes: seq<Change>): Table
    requires Usable(cfg) && Run(cfg, t, changes)
    decreases |changes|
  {
    if changes == [] then t else Final(cfg, After(cfg, t, changes[0]), changes[1..])
  }

  function Insertions(c: Change): seq<Timed> {
    match c
    case Inserted(x) => [x]
    case Compacted(_, _, between, others, _) => between + others
  }

  /** An inserted record counts unless it runs backwards past its first bucket: then it gets no bucket at all. */
  ghost function InsertedAmount(cfg: seq<Granularity>, keys: seq<int>, f: nat): Change -> real
    requires Usable(cfg)
  {
    (c: Change) => SeqSum(Insertions(c), LandedAmount(SplitBy(cfg), OfKeys(keys), f))
  }

  /** What other writers added to the selected rows before these were deleted. */
  ghost function Caught(cfg: seq<Granularity>, t: Table, c: Change, keys: seq<int>, f: nat): real
    requires Usable(cfg)
  {
    if c.Inserted? then 0.0
    else
      var selected, sel := KeysOf(c.records), WithKeys(keys);
      Sum(selected, Picked(SpreadAll(SplitBy(cfg), t, c.between), sel, f)) - Sum(selected, Picked(t, sel, f))
  }

  ghost function CaughtIn(cfg: seq<Granularity>, t: Table, changes: seq<Change>, keys: seq<int>, f: nat): real
    requires Usable(cfg) && Run(cfg, t, changes)
    decreases |changes|
  {
    if changes == [] then 0.0
    else Caught(cfg, t, changes[0], keys, f) + CaughtIn(cfg, After(cfg, t, changes[0]), changes[1..], keys, f)
  }

  lemma InsertionsAdd(cfg: seq<Granularity>, t: Table, xs: seq<Timed>, keys: seq<int>, f: nat)
    requires Usable(cfg)
    ensures Total(SpreadAll(SplitBy(cfg), t, xs), WithKeys(keys), f)
         == Total(t, WithKeys(keys), f) + SeqSum(xs, LandedAmount(SplitBy(cfg), OfKeys(keys), f))
  {
    ProgramSharesAll(cfg, xs);
    SpreadingAdds(SplitBy(cfg), t, xs, WithKeys(keys), OfKeys(keys), f);
  }

  lemma CompactionAdds(cfg: seq<Granularity>, t: Table, c: Change, keys: seq<int>, f: nat)
    requires Usable(cfg) && PositiveWidths(t) && Possible(t, c) && c.Compacted?
    ensures Total(After(cfg, t, c), WithKeys(keys), f) + Caught(cfg, t, c, keys, f)
         == Total(t, WithKeys(keys), f) + InsertedAmount(cfg, keys, f)(c)
  {
    var split, sel, landed := SplitBy(cfg), WithKeys(keys), LandedAmount(SplitBy(cfg), OfKeys(keys), f);
    var written, back := SpreadAll(split, t, c.between), BackEntries(c.records, c.back);
    InsertionsAdd(cfg, t, c.between, keys, f);
    SpreadAllKeepsKeys(split, t, c.between);
    TotalOfRemoval(written, KeysOf(c.records), sel, f);
    InsertionsAdd(cfg, written - KeysOf(c.records), c.writes, keys, f);
    SeqSumPermuted(c.writes, back + c.others, landed);
    SeqSumConcat(back, c.others, landed);
    SeqSumConcat(c.between, c.others, landed);
    BackIsWorth(cfg, t, c.records, c.back, keys, f);
  }

  lemma ChangeConserves(cfg: seq<Granularity>, t: Table, c: Change, keys: seq<int>, f: nat)
    requires Usable(cfg) && PositiveWidths(t) && Possible(t, c)
    ensures Total(After(cfg, t, c), WithKeys(keys), f) + Caught(cfg, t, c, keys, f)
         == Total(t, WithKeys(keys), f) + InsertedAmount(cfg, keys, f)(c)
    ensures PositiveWidths(After(cfg, t, c))
  {
    if c.Inserted? {
      SpreadShape(cfg, t, c.x);
      InsertionsAdd(cfg, t, [c.x], keys, f);
      assert [c.x][1..] == [];
    } else {
      CompactionAdds(cfg, t, c, keys, f);
      SpreadAllShape(cfg, t, c.between);
      SpreadAllShape(cfg, SpreadAll(SplitBy(cfg), t, c.between) - KeysOf(c.records), c.writes);
    }
  }

  /** Over any sequence of inserts and compactions of either kind, with any insertions while rows are selected, deleted
      and written back, the totals per key fields grow by exactly the inserted records that get a bucket, less what was
      added to selected rows before these were deleted. */
  lemma {:induction false} RunsConserve(cfg: seq<Granularity>, t: Table, changes: seq<Change>, keys: seq<int>, f: nat)
    requires Usable(cfg) && PositiveWidths(t) && Run(cfg, t, changes)
    ensures Total(Final(cfg, t, changes), WithKeys(keys), f) + CaughtIn(cfg, t, changes, keys, f)
         == Total(t, WithKeys(keys), f) + SeqSum(changes, InsertedAmount(cfg, keys, f))
    decreases |changes|
  {
    if changes != [] {
      ChangeConserves(cfg, t, changes[0], keys, f);
      RunsConserve(cfg, After(cfg, t, changes[0]), changes[1..], keys, f);
    }
  }

  /** The entry has no share in any of the rows. */
  ghost predicate Spares(split: Splitter, x: Timed, selected: set<BucketKey>) {
    forall b :: b in split(x) ==> BucketKey(b.start, b.width, x.entry.keys) !in selected
  }

  lemma {:induction false} SparedValue(t: Table, bs: seq<Bucket>, keys: seq<int>, row: Row, k: BucketKey, f: nat)
    requires forall b :: b in bs ==> BucketKey(b.start, b.width, keys) != k
    ensures Value(WriteAll(t, bs, keys, row), k, f) == Value(t, k, f)
    decreases |bs|
  {
    if bs != [] {
      var at, part := BucketKey(bs[0].start, bs[0].width, keys), Scale(row, bs[0].proportion);
      assert bs[0] in bs && forall b :: b in bs[1..] ==> b in bs;
      ValueOfUpsert(t, at, part, k, f);
      SparedValue(Upsert(t, at, part), bs[1..], keys, row, k, f);
    }
  }

  lemma {:induction false} SparedValues(split: Splitter, t: Table, xs: seq<Timed>, selected: set<BucketKey>,
                                        k: BucketKey, f: nat)
    requires (forall x :: x in xs ==> Spares(split, x, selected)) && k in selected
    ensures Value(SpreadAll(split, t, xs), k, f) == Value(t, k, f)
    decreases |xs|
  {
    if xs != [] {
      assert xs[0] in xs && forall x :: x in xs[1..] ==> x in xs;
      SparedValue(t, split(xs[0]), xs[0].entry.keys, xs[0].entry.row, k, f);
      SparedValues(split, Spread(split, t, xs[0]), xs[1..], selected, k, f);
    }
  }

  /** Nothing is caught if the entries written before the deletion have no share in the selected rows. */
  lemma NothingIsCaught(cfg: seq<Granularity>, t: Table, c: Change, keys: seq<int>, f: nat)
    requires Usable(cfg) && c.Compacted? && forall x :: x in c.between ==> Spares(SplitBy(cfg), x, KeysOf(c.records))
    ensures Caught(cfg, t, c, keys, f) == 0.0
  {
    var selected, sel := KeysOf(c.records), WithKeys(keys);
    var written := SpreadAll(SplitBy(cfg), t, c.between);
    forall k | k in selected ensures Picked(written, sel, f)(k) == Picked(t, sel, f)(k) {
      SparedValues(SplitBy(cfg), t, c.between, selected, k, f);
    }
    SumCongruent(selected, Picked(written, sel, f), Picked(t, sel, f));
  }

  /** An insertion that reads its clock after the compaction has read its own spares all stale rows of a width, provided
      that the span of this width is a multiple of it. */
  lemma LateInsertionSpares(cfg: seq<Granularity>, t: Table, b: nat, epoch: int, x: Timed)
    requires Widening(cfg) && b < |cfg| - 1 && epoch <= x.now && Divides(cfg[b].width, cfg[b].span)
    ensures Spares(SplitBy(cfg), x, Stale(t, cfg, b, epoch))
  {
    var w, limit, bs := cfg[b].width, Limit(cfg[b], epoch), SplitBy(cfg)(x);
    forall p | p in bs ensures BucketKey(p.start, p.width, x.entry.keys) !in Stale(t, cfg, b, epoch) {
      if p.width == w && p.start < limit { OwnPiece(cfg, x.now, x.entry.start, x.entry.end, p, b, epoch); }
    }
  }

  /** A bucket of a record has the width of its own start, or it is the first and has that of the record's. */
  lemma PieceWidth(cfg: seq<Granularity>, now: int, start: int, end: int, p: Bucket)
    requires Usable(cfg) && p in BucketsOf(cfg, now, start, end)
    ensures p.width == LengthForTime(cfg, now, p.start)
         || (p.width == LengthForTime(cfg, now, start) && p.start == Floor(start, p.width))
  {
    var bs := BucketsOf(cfg, now, start, end);
    if start <= end {
      RecordIsTiled(cfg, now, start, end);
      var i :| 0 <= i < |bs| && bs[i] == p;
    } else {
      ReversedRecord(cfg, now, start, end);
    }
  }

  lemma OwnPiece(cfg: seq<Granularity>, now: int, start: int, end: int, p: Bucket, b: nat, epoch: int)
    requires Widening(cfg) && b < |cfg| - 1 && epoch <= now && Divides(cfg[b].width, cfg[b].span)
    requires p in BucketsOf(cfg, now, start, end) && p.start < Limit(cfg[b], epoch)
    ensures p.width != cfg[b].width
  {
    var w := cfg[b].width;
    PieceWidth(cfg, now, start, end, p);
    WidthIsOver(cfg, b, epoch, now, p.start);
    if start < Limit(cfg[b], epoch) {
      WidthIsOver(cfg, b, epoch, now, start);
    } else {
      FloorIsMultiple(epoch, w);
      ModOfSum(cfg[b].span, Limit(cfg[b], epoch), w);
      FloorMonotone(Limit(cfg[b], epoch), start, w);
    }
  }

  lemma CoversOnMultiple(g: Granularity, now: int, when: int, k: nat)
    requires g.width > 0 && now == k * g.width && when <= now
    ensures Covers(g, now, when) <==> now - when <= g.span
    ensures Limit(g, now) == now - g.span
  {
    TimesDivides(k, g.width);
    FloorUnique(now, now, g.width);
  }

  lemma FloorToMultiple(k: nat, w: int, first: int, t: int)
    requires w > 0 && first == k * w && first <= t < first + w
    ensures Floor(t, w) == first
  {
    TimesDivides(k, w);
    FloorUnique(first, t, w);
  }

  /** Where the limit of a width is no multiple of it, a moment at the limit has its bucket begin before. */
  lemma MeetsStale(cfg: seq<Granularity>, b: nat, epoch: int, when: int)
    requires Widening(cfg) && b < |cfg| && when == Limit(cfg[b], epoch) && !Divides(cfg[b].width, when)
    requires forall i :: 0 <= i < b ==> !Covers(cfg[i], epoch, when)
    ensures BucketsOf(cfg, epoch, when, when) == [Bucket(Floor(when, cfg[b].width), 1.0, cfg[b].width)]
    ensures Floor(when, cfg[b].width) < Limit(cfg[b], epoch)
  {
    CoversFromLimit(cfg[b], epoch, when);
    FirstCoveringUnique(cfg, epoch, when, b);
    SingleBucket(cfg, epoch, when, when);
  }

  /** That is so in the configuration of jobs, where a year is no multiple of two days: even an insertion at the time of
      the compaction may have its share in a row that is stale. */
  lemma JobInsertionMeetsStale(cfg: seq<Granularity>, epoch: int, when: int, k: nat)
    requires cfg == JobBuckets() && k >= 183 && epoch == k * 172800 && when == epoch - 31536000
    ensures when == Limit(cfg[3], epoch) && !Divides(cfg[3].width, when)
    ensures forall i :: 0 <= i < 3 ==> !Covers(cfg[i], epoch, when)
  {
    CoversOnMultiple(cfg[0], epoch, when, 48 * k);
    CoversOnMultiple(cfg[1], epoch, when, 12 * k);
    CoversOnMultiple(cfg[2], epoch, when, 2 * k);
    CoversOnMultiple(cfg[3], epoch, when, k);
    FloorToMultiple(k - 183, cfg[3].width, epoch - 183 * 172800, when);
  }

  /** A record that is lost: one that ends a second before it starts on a full hour, put in at its start with the
      default widths, changes nothing, although its raw record is kept. */
  lemma ReversedInsertIsLost(cfg: seq<Granularity>, t: Table, keys: seq<int>, row: Row, start: int, hours: nat)
    requires cfg == BaseBuckets() && start == hours * 3600
    ensures Spread(SplitBy(cfg), t, Timed(Entry(keys, row, start, start - 1), start)) == t
  {
    CoversOnMultiple(cfg[0], start, start, hours);
    FirstCoveringUnique(cfg, start, start, 0);
    FloorToMultiple(hours, 3600, start, start);
    ReversedRecord(cfg, start, start, start - 1);
  }

  /** A chain of widths keeps every row aligned over any such run. */
  lemma {:induction false} RunsStayAligned(cfg: seq<Granularity>, t: Table, changes: seq<Change>)
    requires Chain(cfg) && AlignedRows(t) && Run(cfg, t, changes)
    ensures AlignedRows(Final(cfg, t, changes))
    decreases |changes|
  {
    if changes != [] {
      var c := changes[0];
      match c {
        case Inserted(x) => SpreadShape(cfg, t, x);
        case Compacted(records, _, between, _, writes) =>
          SpreadAllShape(cfg, t, between);
          SpreadAllShape(cfg, SpreadAll(SplitBy(cfg), t, between) - KeysOf(records), writes);
      }
      RunsStayAligned(cfg, After(cfg, t, c), changes[1..]);
    }
  }
}
