/** The table of records that wait for being put into the buckets: a queue that worker jobs take from. */
module InTables {
  import opened Granularities
  import opened BucketTables
  import opened Regeneration

  const WAITING_LIFE := 86400
  const LOCK_LIFE := 3600

  datatype Row = Row(record: RawRecord, taken: bool, since: int)

  /** How the work on one record ends. A failed insertion may have left its raw record behind, and the attempt to
      free the row may fail too; after a successful one, at the given time, the row may fail to be deleted. */
  datatype Outcome = Failed(raw: bool, freed: bool) | Inserted(deleted: bool, now: int)

  /** The table, whose rows are known by the place of their record among those ever accepted, and for each of these
      how often it went into the buckets and the raw table. */
  datatype Ledger =
    Ledger(accepted: seq<RawRecord>, table: map<nat, Row>, committed: map<nat, nat>, raw: map<nat, nat>)
  {
    predicate Knows(id: nat) {
      id < |accepted| && id in committed && id in raw
    }

    function Queued(record: RawRecord, now: int): Ledger
    {
      var id := |accepted|;
      Ledger(accepted + [record], table[id := Row(record, false, now)], committed[id := 0], raw[id := 0])
    }

    function Freed(id: nat): Ledger {
      if id in table then this.(table := table[id := table[id].(taken := false)]) else this
    }

    function WithRaw(id: nat): Ledger
      requires Knows(id)
    {
      this.(raw := raw[id := raw[id] + 1])
    }

    function WithBuckets(id: nat): Ledger
      requires Knows(id)
    {
      WithRaw(id).(committed := committed[id := committed[id] + 1])
    }

    function Deleted(id: nat): Ledger {
      this.(table := table - {id})
    }

    function Settled(id: nat, o: Outcome): (after: Ledger)
      requires Knows(id)
      ensures after.accepted == accepted && forall i: nat :: Knows(i) ==> after.Knows(i)
    {
      match o
      case Failed(r, freed) =>
        var after := if r then WithRaw(id) else this;
        if freed then after.Freed(id) else after
      case Inserted(deleted, _) => if deleted then WithBuckets(id).Deleted(id) else WithBuckets(id)
    }

    /** Selected are the rows that nobody took, or took too long ago. */
    predicate Eligible(id: nat, now: int) {
      id in table && (!table[id].taken || now - table[id].since > WAITING_LIFE)
    }
  }

  /** Every row holds its record, a record is in the table until its buckets are committed, and each commit has its
      raw record. */
  ghost predicate LedgerKept(l: Ledger) {
    l.table.Keys <= l.committed.Keys && l.committed.Keys == l.raw.Keys && forall id: nat :: KeptAt(l, id)
  }

  predicate KeptAt(l: Ledger, id: nat) {
    && (id < |l.accepted| <==> id in l.committed)
    && (id in l.committed <==> id in l.raw)
    && (id in l.table ==> id in l.committed && l.table[id].record == l.accepted[id])
    && (id in l.committed ==> (id in l.table || l.committed[id] >= 1) && l.committed[id] <= l.raw[id])
  }

  lemma SettledKeeps(l: Ledger, id: nat, o: Outcome)
    requires LedgerKept(l) && l.Knows(id)
    ensures LedgerKept(l.Settled(id, o))
  {
    forall i: nat ensures KeptAt(l.Settled(id, o), i) {
      assert KeptAt(l, i);
    }
  }

  /** What settling a record comes to, for it and for every other one: a raw record more if one was left, a commit more
      if it was inserted, the row gone if it was deleted and free again if it was freed. */
  lemma SettledIs(l: Ledger, id: nat, o: Outcome, i: nat)
    requires l.Knows(id) && l.Knows(i)
    ensures var after := l.Settled(id, o);
      && after.raw[i] == l.raw[i] + (if i == id && (o.Inserted? || o.raw) then 1 else 0)
      && after.committed[i] == l.committed[i] + (if i == id && o.Inserted? then 1 else 0)
      && (i in after.table <==> i in l.table && !(i == id && o.Inserted? && o.deleted))
      && (i in after.table ==>
            after.table[i] == if i == id && o.Failed? && o.freed then l.table[i].(taken := false) else l.table[i])
  {}

  lemma QueuedKeeps(l: Ledger, record: RawRecord, now: int)
    requires LedgerKept(l)
    ensures LedgerKept(l.Queued(record, now))
  {
    forall i: nat ensures KeptAt(l.Queued(record, now), i) {
      assert KeptAt(l, i);
    }
  }

  lemma UntakenKeeps(l: Ledger)
    requires LedgerKept(l)
    ensures LedgerKept(Untaken(l))
  {
    forall i: nat ensures KeptAt(Untaken(l), i) {
      assert KeptAt(l, i);
    }
  }

  /** Row `id` is as before, or new: free to be taken, and its record in no bucket yet. */
  predicate SameOrNew(before: Ledger, after: Ledger, now: int, id: nat) {
    if id in before.committed || id >= |after.accepted| then
      && (id in after.table <==> id in before.table)
      && (id in after.table ==> after.table[id] == before.table[id])
      && (id in after.committed <==> id in before.committed)
      && (id in after.committed ==> after.committed[id] == before.committed[id])
      && (id in after.raw <==> id in before.raw)
      && (id in after.raw ==> after.raw[id] == before.raw[id])
    else
      && id in after.table && after.table[id] == Row(after.accepted[id], false, now)
      && id in after.committed && after.committed[id] == 0
      && id in after.raw && after.raw[id] == 0
  }

  /** The records are queued behind those accepted before, and nothing else changed. */
  ghost predicate Appends(before: Ledger, after: Ledger, records: seq<RawRecord>, now: int) {
    after.accepted == before.accepted + records && forall id: nat :: SameOrNew(before, after, now, id)
  }

  lemma AppendsOneMore(before: Ledger, after: Ledger, records: seq<RawRecord>, record: RawRecord, now: int)
    requires LedgerKept(before) && LedgerKept(after) && Appends(before, after, records, now)
    ensures Appends(before, after.Queued(record, now), records + [record], now)
  {
    var more := after.Queued(record, now);
    forall id: nat ensures SameOrNew(before, more, now, id) {
      assert SameOrNew(before, after, now, id) && KeptAt(before, id) && KeptAt(after, id);
    }
  }

  lemma AppendsNone(l: Ledger, now: int)
    requires LedgerKept(l)
    ensures Appends(l, l, [], now)
  {
    forall id: nat ensures SameOrNew(l, l, now, id) {
      assert KeptAt(l, id);
    }
  }

  /** A bundle that failed at its record `k` and is sent again, whatever the jobs did meanwhile, is queued whole behind
      its first `k` records: records are queued twice exactly if the first attempt did not fail at once. */
  lemma SentAgain(first: Ledger, failed: Ledger, between: Ledger, again: Ledger, bundle: seq<RawRecord>, k: nat,
                  now: int, later: int)
    requires k <= |bundle| && Appends(first, failed, bundle[..k], now)
    requires between.accepted == failed.accepted && Appends(between, again, bundle, later)
    ensures again.accepted == first.accepted + bundle[..k] + bundle
    ensures multiset(again.accepted) == multiset(first.accepted) + multiset(bundle) + multiset(bundle[..k])
    ensures multiset(again.accepted) == multiset(first.accepted) + multiset(bundle) <==> k == 0
  {
    assert |multiset(again.accepted)| == |first.accepted| + k + |bundle|;
  }

  /** What a job gets of a row. */
  datatype Item = Item(id: nat, record: RawRecord)

  predicate KnowsAll(l: Ledger, items: seq<Item>) {
    forall i :: 0 <= i < |items| ==> l.Knows(items[i].id)
  }

  /** The records of a job one after the other. */
  function SettledAll(l: Ledger, items: seq<Item>, outcomes: seq<Outcome>): (after: Ledger)
    requires |items| == |outcomes| && KnowsAll(l, items)
    ensures after.accepted == l.accepted && forall id: nat :: l.Knows(id) ==> after.Knows(id)
    decreases |items|
  {
    var n := |items| - 1;
    if items == [] then l else SettledAll(l, items[..n], outcomes[..n]).Settled(items[n].id, outcomes[n])
  }

  /** The raw records a job leaves behind. */
  function RawsOf(items: seq<Item>, outcomes: seq<Outcome>): seq<RawRecord>
    requires |items| == |outcomes|
  {
    if items == [] then []
    else
      var n := |items| - 1;
      RawsOf(items[..n], outcomes[..n]) + Raw(items[n].record, outcomes[n])
  }

  function Raw(record: RawRecord, o: Outcome): seq<RawRecord> {
    if o.Inserted? || o.raw then [record] else []
  }

  /** What a job puts into the buckets, and when. */
  function CommitsOf(items: seq<Item>, outcomes: seq<Outcome>): seq<Timed>
    requires |items| == |outcomes|
  {
    if items == [] then []
    else
      var n := |items| - 1;
      CommitsOf(items[..n], outcomes[..n]) + Commit(items[n].record, outcomes[n])
  }

  function Commit(record: RawRecord, o: Outcome): seq<Timed> {
    if o.Inserted? then [Timed(RawEntry(record), o.now)] else []
  }

  function Committed(split: Splitter, t: Table, record: RawRecord, o: Outcome): Table {
    if o.Inserted? then Spread(split, t, Timed(RawEntry(record), o.now)) else t
  }

  lemma NextSpread(split: Splitter, t: Table, done: seq<Timed>, record: RawRecord, o: Outcome)
    ensures SpreadAll(split, t, done + Commit(record, o)) == Committed(split, SpreadAll(split, t, done), record, o)
  {
    if o.Inserted? {
      SpreadAllAppend(split, t, done, Timed(RawEntry(record), o.now));
    } else {
      assert done + Commit(record, o) == done;
    }
  }

  lemma KnowsAllStill(l: Ledger, m: Ledger, items: seq<Item>)
    requires KnowsAll(l, items) && forall id: nat :: l.Knows(id) ==> m.Knows(id)
    ensures KnowsAll(m, items)
  {}

  /** The tables of the records of a type. */
  datatype Tables = Tables(raw: seq<RawRecord>, buckets: Table)

  function Stored(split: Splitter, t: Tables, items: seq<Item>, outcomes: seq<Outcome>): Tables
    requires |items| == |outcomes|
  {
    if items == [] then t
    else
      var n := |items| - 1;
      var before := Stored(split, t, items[..n], outcomes[..n]);
      Tables(before.raw + Raw(items[n].record, outcomes[n]),
        Committed(split, before.buckets, items[n].record, outcomes[n]))
  }

  lemma NextItem(split: Splitter, l: Ledger, t: Tables, items: seq<Item>, i: nat, outcomes: seq<Outcome>, o: Outcome)
    requires i < |items| && |outcomes| == i && KnowsAll(l, items)
    ensures SettledAll(l, items[..i + 1], outcomes + [o]) == SettledAll(l, items[..i], outcomes).Settled(items[i].id, o)
    ensures var before := Stored(split, t, items[..i], outcomes);
      Stored(split, t, items[..i + 1], outcomes + [o])
      == Tables(before.raw + Raw(items[i].record, o), Committed(split, before.buckets, items[i].record, o))
  {
    assert items[..i + 1][..i] == items[..i] && (outcomes + [o])[..i] == outcomes;
  }

  lemma {:induction false} RawsAreStored(split: Splitter, t: Tables, items: seq<Item>, outcomes: seq<Outcome>)
    requires |items| == |outcomes|
    ensures Stored(split, t, items, outcomes).raw == t.raw + RawsOf(items, outcomes)
    decreases |items|
  {
    if items != [] {
      RawsAreStored(split, t, items[..|items| - 1], outcomes[..|items| - 1]);
    }
  }

  lemma {:induction false} CommitsAreStored(split: Splitter, t: Tables, items: seq<Item>, outcomes: seq<Outcome>)
    requires |items| == |outcomes|
    ensures Stored(split, t, items, outcomes).buckets == SpreadAll(split, t.buckets, CommitsOf(items, outcomes))
    decreases |items|
  {
    if items != [] {
      var n := |items| - 1;
      CommitsAreStored(split, t, items[..n], outcomes[..n]);
      NextSpread(split, t.buckets, CommitsOf(items[..n], outcomes[..n]), items[n].record, outcomes[n]);
    }
  }

  class AccountingQueue {
    var table: map<nat, Row>
    var lastId: nat
    ghost var ledger: Ledger
    var rawTable: seq<RawRecord>
    const db: BucketTable
    const clock: Clock
    const cfg: seq<Granularity>
    const readOnly: bool

    ghost predicate Valid()
      reads this
    {
      && Usable(cfg)
      && ledger.table == table && |ledger.accepted| == lastId && LedgerKept(ledger)
    }

    constructor (db: BucketTable, clock: Clock, cfg: seq<Granularity>, readOnly: bool)
      requires Usable(cfg)
      ensures Valid() && this.db == db && this.clock == clock && this.cfg == cfg && this.readOnly == readOnly
      ensures ledger == Ledger([], map[], map[], map[]) && rawTable == []
    {
      this.db, this.clock, this.cfg, this.readOnly := db, clock, cfg, readOnly;
      table, lastId, ledger, rawTable := map[], 0, Ledger([], map[], map[], map[]), [];
    }

    method InsertInQueueTable(record: RawRecord, now: int) returns (ok: bool)
      requires Valid()
      modifies `table, `lastId, `ledger
      ensures Valid() && ledger == if ok then old(ledger).Queued(record, now) else old(ledger)
    {
      ok := *;
      if ok {
        table, lastId := table[lastId := Row(record, false, now)], lastId + 1;
        QueuedKeeps(ledger, record, now);
        ledger := ledger.Queued(record, now);
      }
    }

    /** Success means that every record is queued, each under a new number and free to be taken. An error leaves
        exactly the records before the failing one queued. */
    method InsertRecordBundleThroughQueue(bundle: seq<RawRecord>, now: int) returns (ok: bool, ghost queued: nat)
      requires Valid()
      modifies `table, `lastId, `ledger
      ensures Valid() && (ok ==> queued == |bundle| && !readOnly)
      ensures !ok ==> queued == 0 || queued < |bundle|
      ensures queued <= |bundle| && Appends(old(ledger), ledger, bundle[..queued], now)
    {
      queued := 0;
      AppendsNone(ledger, now);
      if readOnly { return false, 0; }
      for i := 0 to |bundle|
        invariant Valid() && queued == i && Appends(old(ledger), ledger, bundle[..i], now)
      {
        AppendsOneMore(old(ledger), ledger, bundle[..i], bundle[i], now);
        assert bundle[..i + 1] == bundle[..i] + [bundle[i]];
        var inserted := InsertInQueueTable(bundle[i], now);
        if !inserted { return false, i; }
        queued := i + 1;
      }
      ok := true;
    }

    /** At the start of the service, when no job of an earlier one is left: whatever the clock will show, the next
        load may take every row. Nothing else changes. */
    method MarkAllPendingRecordsAsNotTaken() returns (ok: bool)
      requires Valid()
      modifies `table, `ledger
      ensures Valid() && ledger.(table := old(ledger).table) == old(ledger)
      ensures !ok ==> ledger == old(ledger)
      ensures ok ==> forall id, now: int :: ledger.Eligible(id, now) <==> id in old(ledger).table
      ensures forall id :: id in ledger.table <==> id in old(ledger).table
      ensures forall id :: id in ledger.table ==>
        ledger.table[id].record == old(ledger).table[id].record && ledger.table[id].since == old(ledger).table[id].since
      ensures ok ==> ledger == Untaken(old(ledger))
    {
      ok := *;
      if ok {
        table := map id | id in table :: table[id].(taken := false);
        UntakenKeeps(ledger);
        ledger := Untaken(ledger);
      }
    }

    /** The raw record goes in on its own, the buckets in a transaction. */
    method InsertRecordDirectly(record: RawRecord) returns (inserted: bool, ghost raw: bool, ghost now: int)
      requires Usable(cfg)
      modifies `rawTable, db, clock
      ensures inserted ==> raw && !readOnly
      ensures rawTable == if raw then old(rawTable) + [record] else old(rawTable)
      ensures db.rows == if inserted then Spread(SplitBy(cfg), old(db.rows), Timed(RawEntry(record), now))
        else old(db.rows)
      ensures old(clock.time) <= now == clock.time
    {
      inserted, raw, now := false, false, clock.time;
      if readOnly { return; }
      var rawInserted: bool := *;
      if !rawInserted { return; }
      rawTable, raw := rawTable + [record], true;
      var before := db.rows;
      var time := clock.Now();
      db.SplitInBuckets(cfg, time, RawEntry(record));
      inserted, now := *, time;
      if !inserted { db.rows := before; }
    }

    /** Whatever fails for one record, the job goes on to the next. */
    method InsertFromINTable(items: seq<Item>) returns (ghost outcomes: seq<Outcome>)
      requires Valid() && KnowsAll(ledger, items)
      modifies `table, `ledger, `rawTable, db, clock
      ensures Valid() && |outcomes| == |items| && ledger == SettledAll(old(ledger), items, outcomes)
      ensures rawTable == old(rawTable) + RawsOf(items, outcomes)
      ensures db.rows == SpreadAll(SplitBy(cfg), old(db.rows), CommitsOf(items, outcomes))
      ensures readOnly ==> forall i :: 0 <= i < |outcomes| ==> outcomes[i].Failed?
    {
      outcomes := [];
      ghost var split, l, t := SplitBy(cfg), ledger, Tables(rawTable, db.rows);
      for i := 0 to |items|
        invariant Valid() && |outcomes| == i && KnowsAll(ledger, items)
        invariant ledger == SettledAll(l, items[..i], outcomes)
        invariant Tables(rawTable, db.rows) == Stored(split, t, items[..i], outcomes)
        invariant readOnly ==> forall j :: 0 <= j < i ==> outcomes[j].Failed?
      {
        ghost var before := ledger;
        var outcome := Work(items[i]);
        KnowsAllStill(before, ledger, items);
        NextItem(split, l, t, items, i, outcomes, outcome);
        outcomes := outcomes + [outcome];
      }
      assert items[..|items|] == items;
      RawsAreStored(split, t, items, outcomes);
      CommitsAreStored(split, t, items, outcomes);
    }

    method Work(item: Item) returns (ghost outcome: Outcome)
      requires Valid() && ledger.Knows(item.id)
      modifies `table, `ledger, `rawTable, db, clock
      ensures Valid()
      ensures ledger == old(ledger).Settled(item.id, outcome)
      ensures rawTable == old(rawTable) + Raw(item.record, outcome)
      ensures db.rows == Committed(SplitBy(cfg), old(db.rows), item.record, outcome)
      ensures readOnly ==> outcome.Failed?
    {
      ghost var raw, now;
      var inserted;
      inserted, raw, now := InsertRecordDirectly(item.record);
      var updated: bool := *;
      if updated {
        if inserted {
          table := table - {item.id};
        } else if item.id in table {
          table := table[item.id := table[item.id].(taken := false)];
        }
      }
      outcome := if inserted then Inserted(updated, now) else Failed(raw, updated);
      SettledKeeps(ledger, item.id, outcome);
      ledger := ledger.Settled(item.id, outcome);
    }
  }

  function Untaken(l: Ledger): Ledger {
    l.(table := map id | id in l.table :: l.table[id].(taken := false))
  }
}
