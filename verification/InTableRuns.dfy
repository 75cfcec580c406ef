/** Runs of the queue of waiting records: loads that overlap with jobs, jobs that fail or die, restarts. */
module InTableRuns {
  import opened Granularities
  import opened BucketTables
  import opened Regeneration
  import opened Sums
  import opened InTables

  /** A load between its selection and its marking. */
  datatype Load = Load(started: int, ids: set<nat>)

  /** A job's hold on a record; `inserted` once the record's buckets are committed and only the row is left. */
  datatype Hold = Hold(id: nat, since: int, inserted: bool)

  /** Holds are known by the load that made them and the record. */
  datatype State = State(ledger: Ledger, now: int, lock: int, nextLoad: nat, loads: map<nat, Load>,
                         holds: map<(nat, nat), Hold>)

  datatype Step =
    | Enqueue(record: RawRecord)
    | Select(ids: set<nat>)
    | SelectFails
    | Mark(load: nat)
    | MarkFails(load: nat)
    | Fail(hold: (nat, nat), raw: bool, freed: bool)
    | Insert(hold: (nat, nat))
    | Delete(hold: (nat, nat), deleted: bool)
    | Die(hold: (nat, nat))
    | Restart
    | Tick(seconds: nat)

  predicate Enabled(s: State, step: Step) {
    match step
    case Enqueue(_) => true
    case Select(ids) => s.now - s.lock > LOCK_LIFE && forall id :: id in ids ==> s.ledger.Eligible(id, s.now)
    case SelectFails => s.now - s.lock > LOCK_LIFE
    case Mark(load) => load in s.loads
    case MarkFails(load) => load in s.loads
    case Fail(h, _, _) => h in s.holds && !s.holds[h].inserted && s.ledger.Knows(s.holds[h].id)
    case Insert(h) => h in s.holds && !s.holds[h].inserted && s.ledger.Knows(s.holds[h].id)
    case Delete(h, _) => h in s.holds && s.holds[h].inserted
    case Die(h) => h in s.holds
    case Restart => true
    case Tick(_) => true
  }

  /** The rows of the load that are still there become taken. */
  function Marked(l: Ledger, ids: set<nat>, now: int): Ledger {
    l.(table := map id | id in l.table :: if id in ids then l.table[id].(taken := true, since := now) else l.table[id])
  }

  function NewHolds(load: nat, ids: set<nat>, now: int): map<(nat, nat), Hold> {
    map k | k in (set id | id in ids :: (load, id)) :: Hold(k.1, now, false)
  }

  function Next(s: State, step: Step): State
    requires Enabled(s, step)
  {
    match step
    case Enqueue(record) => s.(ledger := s.ledger.Queued(record, s.now))
    case Select(ids) => s.(lock := s.now, nextLoad := s.nextLoad + 1, loads := s.loads[s.nextLoad := Load(s.now, ids)])
    case SelectFails => s.(lock := s.now)
    case Mark(load) =>
      var ids := s.loads[load].ids;
      s.(ledger := Marked(s.ledger, ids, s.now), lock := 0, loads := s.loads - {load},
         holds := s.holds + NewHolds(load, ids, s.now))
    case MarkFails(load) => s.(lock := 0, loads := s.loads - {load})
    case Fail(h, raw, freed) =>
      s.(ledger := s.ledger.Settled(s.holds[h].id, Failed(raw, freed)), holds := s.holds - {h})
    case Insert(h) =>
      s.(ledger := s.ledger.WithBuckets(s.holds[h].id), holds := s.holds[h := s.holds[h].(inserted := true)])
    case Delete(h, deleted) =>
      s.(ledger := if deleted then s.ledger.Deleted(s.holds[h].id) else s.ledger, holds := s.holds - {h})
    case Die(h) => s.(holds := s.holds - {h})
    case Restart => s.(ledger := Untaken(s.ledger), lock := 0, loads := map[], holds := map[])
    case Tick(seconds) => s.(now := s.now + seconds)
  }

  const EMPTY_STATE := State(Ledger([], map[], map[], map[]), 0, 0, 0, map[], map[])

  predicate CanRun(s: State, steps: seq<Step>)
    decreases |steps|
  {
    steps == [] || (Enabled(s, steps[0]) && CanRun(Next(s, steps[0]), steps[1..]))
  }

  function Final(s: State, steps: seq<Step>): State
    requires CanRun(s, steps)
    decreases |steps|
  {
    if steps == [] then s else Final(Next(s, steps[0]), steps[1..])
  }

  // No accepted record is lost, whatever fails.

  /** Nothing that was accepted is forgotten, and no commit is taken back. */
  predicate Grows(l: Ledger, m: Ledger) {
    l.accepted <= m.accepted && forall id :: id in l.committed ==>
      id in m.committed && l.committed[id] <= m.committed[id]
  }

  predicate HoldKept(l: Ledger, h: Hold) {
    h.id in l.committed && (h.inserted ==> l.committed[h.id] >= 1)
  }

  ghost predicate Kept(s: State) {
    && LedgerKept(s.ledger)
    && (forall l :: l in s.loads ==> s.loads[l].ids <= s.ledger.committed.Keys)
    && (forall h :: h in s.holds ==> HoldKept(s.ledger, s.holds[h]))
  }

  lemma SettledGrows(l: Ledger, id: nat, o: Outcome)
    requires LedgerKept(l) && id in l.committed
    ensures l.Knows(id) && LedgerKept(l.Settled(id, o)) && Grows(l, l.Settled(id, o))
    ensures l.Settled(id, o).committed.Keys == l.committed.Keys
  {
    assert KeptAt(l, id);
    SettledKeeps(l, id, o);
  }

  lemma TableChanges(l: Ledger, m: Ledger)
    requires LedgerKept(l) && m.accepted == l.accepted && m.committed == l.committed && m.raw == l.raw
    requires m.table.Keys <= l.table.Keys && forall id :: id in m.table ==> m.table[id].record == l.table[id].record
    requires forall id :: id in l.table.Keys - m.table.Keys ==> l.committed[id] >= 1
    ensures LedgerKept(m) && Grows(l, m)
  {
    forall id: nat ensures KeptAt(m, id) { assert KeptAt(l, id); }
  }

  lemma QueuedGrows(l: Ledger, record: RawRecord, now: int)
    requires LedgerKept(l)
    ensures LedgerKept(l.Queued(record, now)) && Grows(l, l.Queued(record, now))
  {
    QueuedKeeps(l, record, now);
    assert KeptAt(l, |l.accepted|);
  }

  lemma LedgerStepKeeps(s: State, step: Step)
    requires Kept(s) && Enabled(s, step)
    ensures LedgerKept(Next(s, step).ledger) && Grows(s.ledger, Next(s, step).ledger)
    ensures step.Enqueue? || Next(s, step).ledger.committed.Keys == s.ledger.committed.Keys
  {
    var l, m := s.ledger, Next(s, step).ledger;
    match step
    case Enqueue(record) => QueuedGrows(l, record, s.now);
    case Fail(h, raw, freed) => SettledGrows(l, s.holds[h].id, Failed(raw, freed));
    case Insert(h) => SettledGrows(l, s.holds[h].id, Inserted(false, s.now));
    case Delete(h, deleted) =>
      assert HoldKept(l, s.holds[h]);
      TableChanges(l, m);
    case _ => TableChanges(l, m);
  }

  lemma SelectedAreKnown(s: State, ids: set<nat>)
    requires Kept(s) && Enabled(s, Select(ids))
    ensures ids <= s.ledger.committed.Keys
  {
    forall id | id in ids ensures id in s.ledger.committed {
      assert s.ledger.Eligible(id, s.now) && KeptAt(s.ledger, id);
    }
  }

  lemma StepKeeps(s: State, step: Step)
    requires Kept(s) && Enabled(s, step)
    ensures Kept(Next(s, step)) && Grows(s.ledger, Next(s, step).ledger)
  {
    var t := Next(s, step);
    LedgerStepKeeps(s, step);
    forall h | h in t.holds ensures HoldKept(t.ledger, t.holds[h]) {
      if h in s.holds { assert HoldKept(s.ledger, s.holds[h]); }
    }
    forall l | l in t.loads ensures t.loads[l].ids <= t.ledger.committed.Keys {
      if l !in s.loads { SelectedAreKnown(s, step.ids); }
    }
  }

  /** The record still waits in its row, or is in the buckets. */
  predicate Remembered(l: Ledger, id: nat, record: RawRecord) {
    (id in l.table && l.table[id].record == record) || (id in l.committed && l.committed[id] >= 1)
  }

  /** From the moment it is accepted a record is in the table or in the buckets, across failures, dying jobs and
      restarts. */
  lemma {:induction false} NothingIsLost(s: State, steps: seq<Step>, id: nat)
    requires Kept(s) && CanRun(s, steps) && id < |s.ledger.accepted|
    ensures Kept(Final(s, steps)) && Grows(s.ledger, Final(s, steps).ledger)
    ensures Remembered(Final(s, steps).ledger, id, s.ledger.accepted[id])
    decreases |steps|
  {
    if steps == [] {
      assert KeptAt(s.ledger, id);
    } else {
      StepKeeps(s, steps[0]);
      NothingIsLost(Next(s, steps[0]), steps[1..], id);
    }
  }

  // Exactly once, as long as jobs keep within their time and finish what they began.

  /** No job outlives the time a record may stay taken, no load the time its lock holds, rows are deleted once
      their record is committed, and no job is lost in between. */
  predicate Careful(s: State, step: Step)
    requires Enabled(s, step)
  {
    match step
    case Select(_) =>
      && (forall h :: h in s.holds ==> s.now - s.holds[h].since <= WAITING_LIFE)
      && (forall l :: l in s.loads ==> s.now - s.loads[l].started <= LOCK_LIFE)
    case SelectFails => forall l :: l in s.loads ==> s.now - s.loads[l].started <= LOCK_LIFE
    case Delete(_, deleted) => deleted
    case Die(h) => !s.holds[h].inserted
    case Restart => forall h :: h in s.holds ==> !s.holds[h].inserted
    case _ => true
  }

  predicate CarefulRun(s: State, steps: seq<Step>)
    requires CanRun(s, steps)
    decreases |steps|
  {
    steps == [] || (Careful(s, steps[0]) && CarefulRun(Next(s, steps[0]), steps[1..]))
  }

  predicate Held(s: State, id: nat) {
    exists h :: h in s.holds && s.holds[h].id == id
  }

  predicate HoldIsFirm(s: State, h: (nat, nat))
    requires h in s.holds
  {
    var hold := s.holds[h];
    && h.1 == hold.id && h.0 < s.nextLoad && hold.id in s.ledger.table && hold.id in s.ledger.committed
    && s.ledger.table[hold.id].taken && s.ledger.table[hold.id].since == hold.since
    && s.ledger.committed[hold.id] == if hold.inserted then 1 else 0
  }

  predicate LoadIsFirm(s: State, l: nat)
    requires l in s.loads
  {
    && l < s.nextLoad && s.loads[l].started == s.lock
    && (forall h :: h in s.holds ==> h.0 != l)
    && (forall id :: id in s.loads[l].ids ==> id in s.ledger.table && !Held(s, id))
  }

  predicate Exclusive(s: State) {
    forall g, h :: g in s.holds && h in s.holds && s.holds[g].id == s.holds[h].id ==> g == h
  }

  predicate Exact(s: State) {
    && (forall h :: h in s.holds ==> HoldIsFirm(s, h))
    && Exclusive(s)
    && (forall l, m :: l in s.loads && m in s.loads ==> l == m)
    && (forall l :: l in s.loads ==> LoadIsFirm(s, l))
    && (forall id :: id in s.ledger.committed && id in s.ledger.table && !Held(s, id) ==> s.ledger.committed[id] == 0)
    && (forall id :: id in s.ledger.committed && id !in s.ledger.table ==> s.ledger.committed[id] == 1)
  }

  lemma CarefulStepIsExact(s: State, step: Step)
    requires Kept(s) && Exact(s) && Enabled(s, step) && Careful(s, step)
    ensures Exact(Next(s, step))
  {
    match step
    case Enqueue(record) => EnqueueIsExact(s, record);
    case Select(ids) => SelectIsExact(s, ids);
    case SelectFails => NoLoad(s);
      SameRecords(s, Next(s, step));
    case Mark(load) => MarkIsExact(s, load);
    case MarkFails(load) => SameRecords(s, Next(s, step));
    case Fail(h, raw, freed) => ReleaseIsExact(s, step, h);
    case Insert(h) => InsertIsExact(s, h);
    case Delete(h, _) => ReleaseIsExact(s, step, h);
    case Die(h) => ReleaseIsExact(s, step, h);
    case Restart => RestartIsExact(s);
    case Tick(_) => SameRecords(s, Next(s, step));
  }

  /** While the lock can be had no load is under way. */
  lemma NoLoad(s: State)
    requires Exact(s) && s.now - s.lock > LOCK_LIFE && forall l :: l in s.loads ==>
      s.now - s.loads[l].started <= LOCK_LIFE
    ensures s.loads == map[]
  {}

  /** Nothing changed but the clock, the lock and the loads that are gone. */
  lemma SameRecords(s: State, t: State)
    requires Exact(s) && t.ledger == s.ledger && t.holds == s.holds && t.nextLoad == s.nextLoad
    requires (t.loads == s.loads && t.lock == s.lock) || t.loads == map[]
      || exists l :: l in s.loads && t.loads == s.loads - {l}
    ensures Exact(t)
  {
    forall h | h in t.holds ensures HoldIsFirm(t, h) { assert HoldIsFirm(s, h); }
    forall id: nat ensures Held(t, id) == Held(s, id) {}
    forall l | l in t.loads ensures LoadIsFirm(t, l) { assert LoadIsFirm(s, l); }
  }

  lemma EnqueueIsExact(s: State, record: RawRecord)
    requires Kept(s) && Exact(s)
    ensures Exact(Next(s, Enqueue(record)))
  {
    var t := Next(s, Enqueue(record));
    assert KeptAt(s.ledger, |s.ledger.accepted|);
    forall h | h in t.holds ensures HoldIsFirm(t, h) { assert HoldIsFirm(s, h); }
    forall id: nat ensures Held(t, id) == Held(s, id) {}
    forall l | l in t.loads ensures LoadIsFirm(t, l) { assert LoadIsFirm(s, l); }
  }

  lemma TakenWhileHeld(s: State, id: nat)
    requires Exact(s) && Held(s, id) && forall h :: h in s.holds ==> s.now - s.holds[h].since <= WAITING_LIFE
    ensures !s.ledger.Eligible(id, s.now)
  {}

  /** What is selected is held by no job: a held row is taken, and not for too long. */
  lemma SelectIsExact(s: State, ids: set<nat>)
    requires Kept(s) && Exact(s) && Enabled(s, Select(ids)) && Careful(s, Select(ids))
    ensures Exact(Next(s, Select(ids)))
  {
    var t := Next(s, Select(ids));
    NoLoad(s);
    forall h | h in t.holds ensures HoldIsFirm(t, h) { assert HoldIsFirm(s, h); }
    forall id: nat ensures Held(t, id) == Held(s, id) {}
    forall id | id in ids ensures !Held(t, id) {
      assert s.ledger.Eligible(id, s.now);
      if Held(s, id) { TakenWhileHeld(s, id); }
    }
    assert LoadIsFirm(t, s.nextLoad);
  }

  lemma MarkedHold(s: State, load: nat, h: (nat, nat))
    requires Kept(s) && Exact(s) && Enabled(s, Mark(load))
    requires h in Next(s, Mark(load)).holds
    ensures HoldIsFirm(Next(s, Mark(load)), h)
    ensures h.0 == load <==> Next(s, Mark(load)).holds[h].id in s.loads[load].ids
  {
    assert LoadIsFirm(s, load);
    if h.0 == load {
      assert h in NewHolds(load, s.loads[load].ids, s.now);
    } else {
      assert h in s.holds && HoldIsFirm(s, h) && Held(s, s.holds[h].id);
    }
  }

  lemma MarkedHeld(s: State, load: nat, id: nat)
    requires Kept(s) && Exact(s) && Enabled(s, Mark(load))
    ensures Held(Next(s, Mark(load)), id) == (Held(s, id) || id in s.loads[load].ids)
  {
    var t, ids := Next(s, Mark(load)), s.loads[load].ids;
    assert LoadIsFirm(s, load);
    if id in ids {
      assert (load, id) in t.holds && t.holds[(load, id)].id == id;
    } else if Held(s, id) {
      var h :| h in s.holds && s.holds[h].id == id;
      assert h in t.holds && t.holds[h].id == id;
    }
  }

  lemma MarkIsExact(s: State, load: nat)
    requires Kept(s) && Exact(s) && Enabled(s, Mark(load))
    ensures Exact(Next(s, Mark(load)))
  {
    var t := Next(s, Mark(load));
    assert t.loads == map[];
    forall h | h in t.holds ensures HoldIsFirm(t, h) && (h.0 == load <==> t.holds[h].id in s.loads[load].ids) {
      MarkedHold(s, load, h);
    }
    forall id: nat ensures Held(t, id) == (Held(s, id) || id in s.loads[load].ids) {
      MarkedHeld(s, load, id);
    }
  }

  lemma InsertIsExact(s: State, h: (nat, nat))
    requires Kept(s) && Exact(s) && Enabled(s, Insert(h))
    ensures Exact(Next(s, Insert(h)))
  {
    var t := Next(s, Insert(h));
    assert HoldIsFirm(s, h);
    forall g | g in t.holds ensures HoldIsFirm(t, g) { assert HoldIsFirm(s, g); }
    forall id: nat ensures Held(t, id) == Held(s, id) {
      if Held(s, id) {
        var g :| g in s.holds && s.holds[g].id == id;
        assert g in t.holds && t.holds[g].id == id;
      }
    }
    forall l | l in t.loads ensures LoadIsFirm(t, l) { assert LoadIsFirm(s, l); }
  }

  /** A hold that ends leaves its record uncommitted in the table, or committed and out of it. */
  lemma Released(s: State, t: State, h: (nat, nat))
    requires Exact(s) && h in s.holds && t.holds == s.holds - {h}
    requires t.loads == s.loads && t.lock == s.lock && t.nextLoad == s.nextLoad
      && t.ledger.committed == s.ledger.committed
    requires forall id :: id != s.holds[h].id ==> (id in t.ledger.table <==> id in s.ledger.table)
    requires forall id :: id in t.ledger.table && id != s.holds[h].id ==> t.ledger.table[id] == s.ledger.table[id]
    requires s.holds[h].id in t.ledger.table <==> !s.holds[h].inserted
    ensures Exact(t)
  {
    var id := s.holds[h].id;
    assert HoldIsFirm(s, h) && Held(s, id);
    forall g | g in t.holds ensures HoldIsFirm(t, g) { assert HoldIsFirm(s, g); }
    forall other: nat ensures Held(t, other) == (Held(s, other) && other != id) {
      if Held(s, other) && other != id {
        var g :| g in s.holds && s.holds[g].id == other;
        assert g in t.holds;
      }
    }
    forall l | l in t.loads ensures LoadIsFirm(t, l) { assert LoadIsFirm(s, l); }
  }

  lemma ReleaseIsExact(s: State, step: Step, h: (nat, nat))
    requires Kept(s) && Exact(s) && Enabled(s, step) && Careful(s, step)
    requires step.Fail? || step.Delete? || step.Die?
    requires step.hold == h
    ensures Exact(Next(s, step))
  {
    assert HoldIsFirm(s, h);
    Released(s, Next(s, step), h);
  }

  lemma RestartIsExact(s: State)
    requires Kept(s) && Exact(s) && Careful(s, Restart)
    ensures Exact(Next(s, Restart))
  {}

  /** In a careful run no two jobs hold the same record, no record is committed twice, and one that has left the
      table has been committed exactly once. */
  lemma {:induction false} ExactlyOnce(s: State, steps: seq<Step>)
    requires Kept(s) && Exact(s) && CanRun(s, steps) && CarefulRun(s, steps)
    ensures var t := Final(s, steps);
      && Exclusive(t)
      && (forall id :: id in t.ledger.committed ==> t.ledger.committed[id] <= 1)
      && (forall id :: id in t.ledger.committed && id !in t.ledger.table ==> t.ledger.committed[id] == 1)
    decreases |steps|
  {
    if steps == [] {
      forall id | id in s.ledger.committed ensures s.ledger.committed[id] <= 1 {
        if Held(s, id) {
          var h :| h in s.holds && s.holds[h].id == id;
          assert HoldIsFirm(s, h);
        }
      }
    } else {
      StepKeeps(s, steps[0]);
      CarefulStepIsExact(s, steps[0]);
      ExactlyOnce(Next(s, steps[0]), steps[1..]);
    }
  }

  lemma EmptyIsExact()
    ensures Kept(EMPTY_STATE) && Exact(EMPTY_STATE)
  {
    forall id: nat ensures KeptAt(EMPTY_STATE.ledger, id) {}
  }

  // What the jobs of a run put into the buckets.

  function CommitOf(s: State, step: Step): seq<Timed>
    requires Enabled(s, step)
  {
    if step.Insert? then [Timed(RawEntry(s.ledger.accepted[s.holds[step.hold].id]), s.now)] else []
  }

  function Commits(s: State, steps: seq<Step>): seq<Timed>
    requires CanRun(s, steps)
    decreases |steps|
  {
    if steps == [] then [] else CommitOf(s, steps[0]) + Commits(Next(s, steps[0]), steps[1..])
  }

  function EntriesOf(xs: seq<Timed>): seq<Entry> {
    seq(|xs|, i requires 0 <= i < |xs| => xs[i].entry)
  }

  function Times(l: Ledger, id: nat): nat {
    if id in l.committed then l.committed[id] else 0
  }

  /** The first `n` records accepted, each as often as it has been committed. */
  function Put(l: Ledger, n: nat): multiset<Entry>
    requires n <= |l.accepted|
  {
    if n == 0 then multiset{} else Put(l, n - 1) + multiset{}[RawEntry(l.accepted[n - 1]) := Times(l, n - 1)]
  }

  lemma {:induction false} SamePut(l: Ledger, m: Ledger, n: nat)
    requires n <= |l.accepted| && l.accepted <= m.accepted && forall id: nat :: id < n ==> Times(l, id) == Times(m, id)
    ensures Put(l, n) == Put(m, n)
  {
    if n > 0 { SamePut(l, m, n - 1); }
  }

  lemma {:induction false} PutOnceMore(l: Ledger, m: Ledger, n: nat, id: nat)
    requires id < n <= |l.accepted| && l.accepted == m.accepted
    requires forall i: nat :: i < n ==> Times(m, i) == Times(l, i) + if i == id then 1 else 0
    ensures Put(m, n) == Put(l, n) + multiset{RawEntry(l.accepted[id])}
  {
    if id == n - 1 {
      SamePut(l, m, n - 1);
    } else {
      PutOnceMore(l, m, n - 1, id);
    }
  }

  lemma EntriesNext(records: seq<RawRecord>, n: nat)
    requires 0 < n <= |records|
    ensures multiset(RawEntries(records[..n]))
         == multiset(RawEntries(records[..n - 1])) + multiset{RawEntry(records[n - 1])}
  {
    assert RawEntries(records[..n]) == RawEntries(records[..n - 1]) + [RawEntry(records[n - 1])];
  }

  lemma {:induction false} PutOnce(l: Ledger, n: nat)
    requires n <= |l.accepted| && forall id: nat :: id < n ==> Times(l, id) == 1
    ensures Put(l, n) == multiset(RawEntries(l.accepted[..n]))
  {
    if n > 0 {
      PutOnce(l, n - 1);
      EntriesNext(l.accepted, n);
    } else {
      assert RawEntries(l.accepted[..0]) == [];
    }
  }

  function AllPut(l: Ledger): multiset<Entry> {
    Put(l, |l.accepted|)
  }

  lemma InsertPuts(s: State, h: (nat, nat))
    requires Kept(s) && Enabled(s, Insert(h))
    ensures AllPut(Next(s, Insert(h)).ledger) == AllPut(s.ledger) + multiset{RawEntry(s.ledger.accepted[s.holds[h].id])}
  {
    PutOnceMore(s.ledger, s.ledger.WithBuckets(s.holds[h].id), |s.ledger.accepted|, s.holds[h].id);
  }

  lemma QueuedPuts(l: Ledger, record: RawRecord, now: int)
    requires LedgerKept(l)
    ensures AllPut(l.Queued(record, now)) == AllPut(l)
  {
    var m := l.Queued(record, now);
    assert KeptAt(l, |l.accepted|) && m.accepted[..|l.accepted|] == l.accepted;
    SamePut(l, m, |l.accepted|);
    assert Put(m, |m.accepted|) == Put(m, |l.accepted|);
  }

  lemma StepPuts(s: State, step: Step)
    requires Kept(s) && Enabled(s, step)
    ensures AllPut(Next(s, step).ledger) == AllPut(s.ledger) + multiset(EntriesOf(CommitOf(s, step)))
  {
    match step
    case Insert(h) =>
      InsertPuts(s, h);
      assert EntriesOf(CommitOf(s, step)) == [RawEntry(s.ledger.accepted[s.holds[h].id])];
    case Enqueue(record) =>
      QueuedPuts(s.ledger, record, s.now);
      assert EntriesOf(CommitOf(s, step)) == [];
    case _ =>
      SamePut(s.ledger, Next(s, step).ledger, |s.ledger.accepted|);
      assert EntriesOf(CommitOf(s, step)) == [];
  }

  lemma EntriesConcat(xs: seq<Timed>, ys: seq<Timed>)
    ensures multiset(EntriesOf(xs + ys)) == multiset(EntriesOf(xs)) + multiset(EntriesOf(ys))
  {
    assert EntriesOf(xs + ys) == EntriesOf(xs) + EntriesOf(ys);
  }

  lemma {:induction false} RunPuts(s: State, steps: seq<Step>)
    requires Kept(s) && CanRun(s, steps)
    ensures AllPut(Final(s, steps).ledger) == AllPut(s.ledger) + multiset(EntriesOf(Commits(s, steps)))
    decreases |steps|
  {
    if steps == [] {
      assert EntriesOf(Commits(s, steps)) == [];
    } else {
      StepKeeps(s, steps[0]);
      StepPuts(s, steps[0]);
      RunPuts(Next(s, steps[0]), steps[1..]);
      EntriesConcat(CommitOf(s, steps[0]), Commits(Next(s, steps[0]), steps[1..]));
    }
  }

  /** By the time a careful run has emptied the table, what its jobs have put into the buckets are the records
      accepted, each once, in some order. */
  lemma QueueIsDrained(steps: seq<Step>)
    requires CanRun(EMPTY_STATE, steps) && CarefulRun(EMPTY_STATE, steps)
      && Final(EMPTY_STATE, steps).ledger.table == map[]
    ensures multiset(EntriesOf(Commits(EMPTY_STATE, steps)))
      == multiset(RawEntries(Final(EMPTY_STATE, steps).ledger.accepted))
  {
    var m := Final(EMPTY_STATE, steps).ledger;
    EmptyIsExact();
    RunPuts(EMPTY_STATE, steps);
    RunKeeps(EMPTY_STATE, steps);
    ExactlyOnce(EMPTY_STATE, steps);
    forall id: nat | id < |m.accepted| ensures Times(m, id) == 1 { assert KeptAt(m, id); }
    PutOnce(m, |m.accepted|);
    assert m.accepted[..|m.accepted|] == m.accepted;
  }

  lemma {:induction false} RunKeeps(s: State, steps: seq<Step>)
    requires Kept(s) && CanRun(s, steps)
    ensures Kept(Final(s, steps))
    decreases |steps|
  {
    if steps != [] {
      StepKeeps(s, steps[0]);
      RunKeeps(Next(s, steps[0]), steps[1..]);
    }
  }

  /** So the totals of the buckets grow by those of all accepted records, at whatever times these are put in, unless
      some run backwards; then those that get no bucket are missing. */
  lemma DrainingFillsBuckets(cfg: seq<Granularity>, t: Table, steps: seq<Step>, keys: seq<int>, f: nat)
    requires Usable(cfg) && CanRun(EMPTY_STATE, steps) && CarefulRun(EMPTY_STATE, steps)
    requires Final(EMPTY_STATE, steps).ledger.table == map[]
    ensures var xs, records := Commits(EMPTY_STATE, steps), Final(EMPTY_STATE, steps).ledger.accepted;
      Total(SpreadAll(SplitBy(cfg), t, xs), WithKeys(keys), f)
      == Total(t, WithKeys(keys), f) + SeqSum(RawEntries(records), EntryAmount(keys, f))
         - SeqSum(xs, LostAmount(SplitBy(cfg), OfKeys(keys), f))
  {
    var xs, records := Commits(EMPTY_STATE, steps), Final(EMPTY_STATE, steps).ledger.accepted;
    var split := SplitBy(cfg);
    QueueIsDrained(steps);
    ProgramSharesAll(cfg, xs);
    SpreadingAdds(split, t, xs, WithKeys(keys), OfKeys(keys), f);
    SeqSumPlus(xs, LandedAmount(split, OfKeys(keys), f), LostAmount(split, OfKeys(keys), f), Amount(OfKeys(keys), f));
    SeqSumMapped(xs, EntriesOf(xs), Amount(OfKeys(keys), f), EntryAmount(keys, f));
    SeqSumPermuted(EntriesOf(xs), RawEntries(records), EntryAmount(keys, f));
  }

  // What a careless run does: each breach of care on its own commits a record more than once.

  lemma {:induction false} FinalOf(s: State, one: seq<Step>, two: seq<Step>)
    requires CanRun(s, one) && CanRun(Final(s, one), two)
    ensures CanRun(s, one + two) && Final(s, one + two) == Final(Final(s, one), two)
    decreases |one|
  {
    if one == [] {
      assert one + two == two;
    } else {
      FinalOf(Next(s, one[0]), one[1..], two);
      assert (one + two)[1..] == one[1..] + two;
    }
  }

  lemma OneStep(s: State, step: Step, t: State)
    requires Enabled(s, step) && t == Next(s, step)
    ensures CanRun(s, [step]) && Final(s, [step]) == t
  {
    assert [step][1..] == [];
  }

  lemma TwoSteps(s: State, one: Step, t: State, two: Step, u: State)
    requires Enabled(s, one) && t == Next(s, one) && Enabled(t, two) && u == Next(t, two)
    ensures CanRun(s, [one, two]) && Final(s, [one, two]) == u
  {
    OneStep(s, one, t);
    OneStep(t, two, u);
    FinalOf(s, [one], [two]);
    assert [one] + [two] == [one, two];
  }

  /** After its record is committed the row is not deleted, the job dies, or the service is started again. */
  datatype Breach = RowStays | JobDies | ServiceRestarts

  function Ending(breach: Breach, h: (nat, nat)): Step {
    match breach
    case RowStays => Delete(h, false)
    case JobDies => Die(h)
    case ServiceRestarts => Restart
  }

  predicate Breaks(step: Step, breach: Breach) {
    match step
    case Delete(_, _) => breach.RowStays?
    case Die(_) => breach.JobDies?
    case Restart => breach.ServiceRestarts?
    case _ => true
  }

  /** The row waits, nobody works on it, and the next load may take it once the clock has gone on. */
  ghost predicate Stuck(s: State, id: nat) {
    && Kept(s) && id in s.ledger.table && s.loads == map[] && s.holds == map[] && 0 <= s.lock <= s.now
    && s.ledger.table[id].since <= s.now
  }

  lemma LoadedRow(s: State, id: nat) returns (t: State, h: (nat, nat))
    requires Kept(s) && s.ledger.Eligible(id, s.now) && s.now - s.lock > LOCK_LIFE && s.loads == map[]
    ensures h == (s.nextLoad, id) && Kept(t) && t.loads == map[] && t.holds == s.holds[h := Hold(id, s.now, false)]
    ensures t.now == s.now && t.lock == 0 && t.ledger == Marked(s.ledger, {id}, s.now) && t.nextLoad == s.nextLoad + 1
    ensures CanRun(s, [Select({id}), Mark(s.nextLoad)]) && Final(s, [Select({id}), Mark(s.nextLoad)]) == t
  {
    h := (s.nextLoad, id);
    var s2 := Next(s, Select({id}));
    StepKeeps(s, Select({id}));
    t := Next(s2, Mark(s.nextLoad));
    StepKeeps(s2, Mark(s.nextLoad));
    OneHold(s.nextLoad, id, s.now);
    TwoSteps(s, Select({id}), s2, Mark(s.nextLoad), t);
  }

  lemma OneHold(load: nat, id: nat, now: int)
    ensures NewHolds(load, {id}, now) == map[(load, id) := Hold(id, now, false)]
  {
    assert (load, id) in NewHolds(load, {id}, now);
  }

  lemma Finished(s: State, h: (nat, nat), breach: Breach) returns (t: State)
    requires Kept(s) && s.loads == map[] && s.holds == map[h := Hold(h.1, s.now, false)] && 0 <= s.lock <= s.now
    requires h.1 in s.ledger.table && s.ledger.table[h.1].since <= s.now
    ensures CanRun(s, [Insert(h), Ending(breach, h)]) && t == Final(s, [Insert(h), Ending(breach, h)])
    ensures Stuck(t, h.1) && t.ledger.committed[h.1] == s.ledger.committed[h.1] + 1
  {
    assert HoldKept(s.ledger, s.holds[h]) && KeptAt(s.ledger, h.1);
    var s4 := Next(s, Insert(h));
    StepKeeps(s, Insert(h));
    t := Next(s4, Ending(breach, h));
    StepKeeps(s4, Ending(breach, h));
    assert s4.holds - {h} == map[];
    TwoSteps(s, Insert(h), s4, Ending(breach, h), t);
  }

  /** The row is loaded, its record committed, and the row stays. */
  lemma Retried(s: State, id: nat, breach: Breach) returns (steps: seq<Step>)
    requires Stuck(s, id)
    ensures CanRun(s, steps) && Stuck(Final(s, steps), id) && forall step :: step in steps ==> Breaks(step, breach)
    ensures Final(s, steps).ledger.committed[id] == s.ledger.committed[id] + 1
  {
    var tick := Tick(WAITING_LIFE + 1);
    var later := Next(s, tick);
    OneStep(s, tick, later);
    StepKeeps(s, tick);
    var loaded, h := LoadedRow(later, id);
    var t := Finished(loaded, h, breach);
    var two, three := [Select({id}), Mark(s.nextLoad)], [Insert(h), Ending(breach, h)];
    FinalOf(later, two, three);
    FinalOf(s, [tick], two + three);
    steps := [tick] + (two + three);
  }

  /** A record is put into the buckets once more every time it has waited too long, if each time its row is not deleted,
      or if each time the job dies, or the service stops, before it can be. */
  lemma {:induction false} CommittedAgainAndAgain(s: State, id: nat, times: nat, breach: Breach)
      returns (steps: seq<Step>)
    requires Stuck(s, id)
    ensures CanRun(s, steps) && Stuck(Final(s, steps), id) && forall step :: step in steps ==> Breaks(step, breach)
    ensures Final(s, steps).ledger.committed[id] == s.ledger.committed[id] + times
    decreases times
  {
    if times == 0 {
      steps := [];
    } else {
      var first := CommittedAgainAndAgain(s, id, times - 1, breach);
      var last := Retried(Final(s, first), id, breach);
      FinalOf(s, first, last);
      steps := first + last;
    }
  }

  lemma BothInsert(s: State, g: (nat, nat), h: (nat, nat)) returns (t: State)
    requires Kept(s) && g in s.holds && h in s.holds && g != h && s.holds[g].id == s.holds[h].id
    requires !s.holds[g].inserted && !s.holds[h].inserted
    ensures CanRun(s, [Insert(g), Insert(h)]) && t == Final(s, [Insert(g), Insert(h)])
    ensures s.holds[g].id in s.ledger.committed && s.holds[g].id in t.ledger.committed
    ensures t.ledger.committed[s.holds[g].id] == s.ledger.committed[s.holds[g].id] + 2
  {
    assert HoldKept(s.ledger, s.holds[g]) && KeptAt(s.ledger, s.holds[g].id);
    var next := Next(s, Insert(g));
    StepKeeps(s, Insert(g));
    assert HoldKept(next.ledger, next.holds[h]) && KeptAt(next.ledger, next.holds[h].id);
    t := Next(next, Insert(h));
    TwoSteps(s, Insert(g), next, Insert(h), t);
  }

  /** A job that outlives the time its record may stay taken: another load takes the record, and both jobs commit it. */
  lemma OutlivedJob(s: State, id: nat) returns (steps: seq<Step>, t: State)
    requires Stuck(s, id) && s.ledger.Eligible(id, s.now) && s.now - s.lock > LOCK_LIFE
    ensures CanRun(s, steps) && t == Final(s, steps) && id in t.ledger.committed
    ensures steps == [Select({id}), Mark(s.nextLoad)] + [Tick(WAITING_LIFE + 1)]
                   + [Select({id}), Mark(s.nextLoad + 1)] + [Insert((s.nextLoad, id)), Insert((s.nextLoad + 1, id))]
    ensures t.ledger.committed[id] == s.ledger.committed[id] + 2
  {
    var tick := Tick(WAITING_LIFE + 1);
    var first, g := LoadedRow(s, id);
    var later := Next(first, tick);
    OneStep(first, tick, later);
    StepKeeps(first, tick);
    var second, h := LoadedRow(later, id);
    t := BothInsert(second, g, h);
    var one, three := [Select({id}), Mark(s.nextLoad)], [Select({id}), Mark(s.nextLoad + 1)];
    FinalOf(s, one, [tick]);
    FinalOf(s, one + [tick], three);
    FinalOf(s, one + [tick] + three, [Insert(g), Insert(h)]);
    steps := one + [tick] + three + [Insert(g), Insert(h)];
  }

  /** A load that outlives the time its lock holds: the next one selects the same record before it is marked. */
  lemma OutlivedLoad(s: State, id: nat) returns (steps: seq<Step>, t: State)
    requires Stuck(s, id) && s.ledger.Eligible(id, s.now) && s.now - s.lock > LOCK_LIFE
    ensures CanRun(s, steps) && t == Final(s, steps) && id in t.ledger.committed
    ensures steps == [Select({id}), Tick(LOCK_LIFE + 1)] + [Select({id}), Mark(s.nextLoad)] + [Mark(s.nextLoad + 1)]
                   + [Insert((s.nextLoad, id)), Insert((s.nextLoad + 1, id))]
    ensures t.ledger.committed[id] == s.ledger.committed[id] + 2
  {
    var tick := Tick(LOCK_LIFE + 1);
    var s1 := Next(s, Select({id}));
    var s2 := Next(s1, tick);
    TwoSteps(s, Select({id}), s1, tick, s2);
    var s3 := Next(s2, Select({id}));
    var s4 := Next(s3, Mark(s.nextLoad));
    TwoSteps(s2, Select({id}), s3, Mark(s.nextLoad), s4);
    var s5 := Next(s4, Mark(s.nextLoad + 1));
    OneStep(s4, Mark(s.nextLoad + 1), s5);
    BothLoaded(s, s1, s2, s3, s4, s5, id);
    t := BothInsert(s5, (s.nextLoad, id), (s.nextLoad + 1, id));
    var one, two, three := [Select({id}), tick], [Select({id}), Mark(s.nextLoad)], [Mark(s.nextLoad + 1)];
    FinalOf(s, one, two);
    FinalOf(s, one + two, three);
    FinalOf(s, one + two + three, [Insert((s.nextLoad, id)), Insert((s.nextLoad + 1, id))]);
    steps := one + two + three + [Insert((s.nextLoad, id)), Insert((s.nextLoad + 1, id))];
  }

  lemma BothLoaded(s: State, s1: State, s2: State, s3: State, s4: State, s5: State, id: nat)
    requires Kept(s) && s.loads == map[] && s.holds == map[] && Enabled(s, Select({id})) && s1 == Next(s, Select({id}))
    requires s2 == Next(s1, Tick(LOCK_LIFE + 1)) && Enabled(s2, Select({id})) && s3 == Next(s2, Select({id}))
    requires Enabled(s3, Mark(s.nextLoad)) && s4 == Next(s3, Mark(s.nextLoad))
    requires Enabled(s4, Mark(s.nextLoad + 1)) && s5 == Next(s4, Mark(s.nextLoad + 1))
    ensures Kept(s5) && s5.ledger.committed == s.ledger.committed
    ensures (s.nextLoad, id) in s5.holds && s5.holds[(s.nextLoad, id)] == Hold(id, s3.now, false)
    ensures (s.nextLoad + 1, id) in s5.holds && s5.holds[(s.nextLoad + 1, id)] == Hold(id, s3.now, false)
  {
    StepKeeps(s, Select({id}));
    StepKeeps(s1, Tick(LOCK_LIFE + 1));
    StepKeeps(s2, Select({id}));
    StepKeeps(s3, Mark(s.nextLoad));
    StepKeeps(s4, Mark(s.nextLoad + 1));
    OneHold(s.nextLoad, id, s3.now);
    OneHold(s.nextLoad + 1, id, s3.now);
  }
}
