/** Commits that overlap in threads of their own, with records added meanwhile. The lists of records are objects: who
    has read which list is current may find that it is no longer when it gets to append to it. */
module DataStoreRuns {
  import opened Registers
  import opened DataStoreClients

  /** A commit between bundles, with a bundle of `count` records under way, on its way out, giving back what is left to
      the list that it has read as the current one, or through. */
  datatype Stage =
    | Sending
    | Waiting(count: nat)
    | Leaving(result: CommitResult)
    | Returning(result: CommitResult, target: nat)
    | Done(result: CommitResult)

  /** The commit has taken the list object `list`. */
  datatype Commit = Commit(list: nat, sent: nat, stage: Stage)

  datatype Adding = Adding(record: Record, target: nat)

  /** `added`, `delivered` and `failedOver` remember every record that ever was, `lost` those that are nowhere. */
  datatype State = State(lists: seq<seq<Record>>, current: nat, commits: seq<Commit>, adds: map<nat, Adding>,
                         added: multiset<Record>, delivered: multiset<Record>, failedOver: multiset<Record>,
                         lost: multiset<Record>)

  datatype Step =
    | BeginAdd(id: nat, register: Record)
    | EndAdd(id: nat)
    | Start
    | Cut(commit: nat)
    | Reply(commit: nat, attempt: Attempt)
    | Finish(commit: nat)
    | ReadTarget(commit: nat)
    | Extend(commit: nat)

  /** The list was taken by a commit that is through, so that nobody looks at it again. */
  predicate Dead(commits: seq<Commit>, l: nat) {
    exists i :: 0 <= i < |commits| && commits[i].list == l && commits[i].stage.Done?
  }

  predicate StageFits(lists: seq<seq<Record>>, c: Commit)
    requires c.list < |lists|
  {
    match c.stage
    case Waiting(count) => 0 < count <= |lists[c.list]| && count <= BUNDLE
    case Returning(_, target) => target < |lists| && target != c.list
    case Done(_) => lists[c.list] == []
    case _ => true
  }

  predicate CommitFits(s: State, c: Commit) {
    c.list < |s.lists| && c.list != s.current && StageFits(s.lists, c)
  }

  /** Every commit has a list of its own, which is not the current one. */
  ghost predicate Sound(s: State) {
    && s.current < |s.lists|
    && (forall i :: 0 <= i < |s.commits| ==> CommitFits(s, s.commits[i]))
    && (forall i, j :: 0 <= i < j < |s.commits| ==> s.commits[i].list != s.commits[j].list)
    && (forall id :: id in s.adds ==> s.adds[id].target < |s.lists|)
  }

  ghost predicate Enabled(s: State, step: Step)
    requires Sound(s)
  {
    match step
    case BeginAdd(id, _) => id !in s.adds
    case EndAdd(id) => id in s.adds
    case Start => true
    case Cut(i) => i < |s.commits| && s.commits[i].stage.Sending? && s.lists[s.commits[i].list] != []
    case Reply(i, _) => i < |s.commits| && s.commits[i].stage.Waiting?
    case Finish(i) => i < |s.commits| && s.commits[i].stage.Sending? && s.lists[s.commits[i].list] == []
    case ReadTarget(i) => i < |s.commits| && s.commits[i].stage.Leaving?
    case Extend(i) => i < |s.commits| && s.commits[i].stage.Returning?
  }

  function Staged(s: State, i: nat, stage: Stage): State
    requires i < |s.commits|
  {
    s.(commits := s.commits[i := s.commits[i].(stage := stage)])
  }

  function Appended(s: State, target: nat, records: seq<Record>): State
    requires target < |s.lists|
  {
    if Dead(s.commits, target) then s.(lost := s.lost + multiset(records))
    else s.(lists := s.lists[target := s.lists[target] + records])
  }

  /** The bundle arrived. What is then taken off the list is as many records as a bundle may have, whether they were
      in this one or came in while it was under way. */
  function Accepted(s: State, i: nat, failover: bool): State
    requires Sound(s) && i < |s.commits| && s.commits[i].stage.Waiting?
  {
    assert CommitFits(s, s.commits[i]);
    var c := s.commits[i];
    var list, n := s.lists[c.list], c.stage.count;
    var bundle := multiset(list[..n]);
    s.(commits := s.commits[i := Commit(c.list, c.sent + n, Sending)],
       lists := s.lists[c.list := AfterBundle(list)],
       delivered := if failover then s.delivered else s.delivered + bundle,
       failedOver := if failover then s.failedOver + bundle else s.failedOver,
       lost := s.lost + multiset(list[n..Max(n, Least(BUNDLE, |list|))]))
  }

  function Max(a: nat, b: nat): nat {
    if a < b then b else a
  }

  ghost function Next(s: State, step: Step): State
    requires Sound(s) && Enabled(s, step)
  {
    match step
    case BeginAdd(id, r) => s.(adds := s.adds[id := Adding(r, s.current)])
    case EndAdd(id) =>
      var a := s.adds[id];
      Appended(s, a.target, [a.record]).(adds := s.adds - {id}, added := s.added + multiset{a.record})
    case Start =>
      s.(lists := s.lists + [[]], current := |s.lists|, commits := s.commits + [Commit(s.current, 0, Sending)])
    case Cut(i) => Staged(s, i, Waiting(|Bundle(s.lists[s.commits[i].list])|))
    case Reply(i, attempt) =>
      if attempt.GaveUp? then Staged(s, i, Leaving(CommitError)) else Accepted(s, i, attempt.FailedOver?)
    case Finish(i) => Staged(s, i, Leaving(Sent(s.commits[i].sent)))
    case ReadTarget(i) => Staged(s, i, Returning(s.commits[i].stage.result, s.current))
    case Extend(i) => GivenBack(s, i)
  }

  /** What is left goes to the end of the list that was read, and the commit is through. */
  function GivenBack(s: State, i: nat): State
    requires Sound(s) && i < |s.commits| && s.commits[i].stage.Returning?
  {
    assert CommitFits(s, s.commits[i]);
    var c := s.commits[i];
    var emptied := Staged(s, i, Done(c.stage.result)).(lists := s.lists[c.list := []]);
    Appended(emptied, c.stage.target, s.lists[c.list])
  }

  lemma StepKeepsSound(s: State, step: Step)
    requires Sound(s) && Enabled(s, step)
    ensures Sound(Next(s, step))
  {
    match step
    case Reply(i, attempt) => ReplyKeepsSound(s, i, attempt);
    case Extend(i) => ExtendKeepsSound(s, i);
    case EndAdd(id) => EndAddKeepsSound(s, id);
    case BeginAdd(_, _) =>
    case Start => StartKeepsSound(s);
    case Cut(i) => StagedKeepsSound(s, i, Waiting(|Bundle(s.lists[s.commits[i].list])|));
    case Finish(i) => StagedKeepsSound(s, i, Leaving(Sent(s.commits[i].sent)));
    case ReadTarget(i) => StagedKeepsSound(s, i, Returning(s.commits[i].stage.result, s.current));
  }

  lemma StagedKeepsSound(s: State, i: nat, stage: Stage)
    requires Sound(s) && i < |s.commits| && CommitFits(s, s.commits[i].(stage := stage))
    ensures Sound(Staged(s, i, stage))
  {
    var t := Staged(s, i, stage);
    forall j | 0 <= j < |t.commits| ensures CommitFits(t, t.commits[j]) {
      assert CommitFits(s, s.commits[j]);
    }
  }

  lemma StartKeepsSound(s: State)
    requires Sound(s)
    ensures Sound(Next(s, Start))
  {
    var t := Next(s, Start);
    forall j | 0 <= j < |t.commits| ensures CommitFits(t, t.commits[j]) {
      if j < |s.commits| { assert CommitFits(s, s.commits[j]); }
    }
    forall i, j | 0 <= i < j < |t.commits| ensures t.commits[i].list != t.commits[j].list {
      assert CommitFits(s, s.commits[i]);
    }
  }

  lemma EndAddKeepsSound(s: State, id: nat)
    requires Sound(s) && id in s.adds
    ensures Sound(Next(s, EndAdd(id)))
  {
    AppendedKeepsSound(s, s.adds[id].target, [s.adds[id].record]);
  }

  lemma AppendedKeepsSound(s: State, target: nat, records: seq<Record>)
    requires Sound(s) && target < |s.lists|
    ensures Sound(Appended(s, target, records))
  {
    var t := Appended(s, target, records);
    forall j | 0 <= j < |t.commits| ensures CommitFits(t, t.commits[j]) {
      assert CommitFits(s, s.commits[j]);
      if t.commits[j].list == target && t.commits[j].stage.Done? { assert Dead(s.commits, target); }
    }
  }

  lemma ReplyKeepsSound(s: State, i: nat, attempt: Attempt)
    requires Sound(s) && Enabled(s, Reply(i, attempt))
    ensures Sound(Next(s, Reply(i, attempt)))
  {
    assert CommitFits(s, s.commits[i]);
    if attempt.GaveUp? {
      StagedKeepsSound(s, i, Leaving(CommitError));
    } else {
      var t := Next(s, Reply(i, attempt));
      forall j | 0 <= j < |t.commits| ensures CommitFits(t, t.commits[j]) {
        assert CommitFits(s, s.commits[j]);
        if j != i { OwnLists(s, i, j); }
      }
    }
  }

  lemma OwnLists(s: State, i: nat, j: nat)
    requires Sound(s) && i < |s.commits| && j < |s.commits| && i != j
    ensures s.commits[i].list != s.commits[j].list
  {
    if i < j { assert s.commits[i].list != s.commits[j].list; }
  }

  function Emptied(s: State, i: nat): State
    requires i < |s.commits| && s.commits[i].list < |s.lists| && s.commits[i].stage.Returning?
  {
    Staged(s, i, Done(s.commits[i].stage.result)).(lists := s.lists[s.commits[i].list := []])
  }

  lemma ExtendKeepsSound(s: State, i: nat)
    requires Sound(s) && Enabled(s, Extend(i))
    ensures Sound(Next(s, Extend(i)))
  {
    assert CommitFits(s, s.commits[i]);
    var t := Emptied(s, i);
    forall j | 0 <= j < |t.commits| ensures CommitFits(t, t.commits[j]) {
      assert CommitFits(s, s.commits[j]);
      if j != i { OwnLists(s, i, j); }
    }
    AppendedKeepsSound(t, s.commits[i].stage.target, s.lists[s.commits[i].list]);
  }

  // Nothing is lost unnoticed.

  function All(lists: seq<seq<Record>>): multiset<Record> {
    if lists == [] then multiset{} else multiset(lists[0]) + All(lists[1..])
  }

  lemma {:induction false} AllUpdated(lists: seq<seq<Record>>, i: nat, list: seq<Record>, r: Record)
    requires i < |lists|
    ensures All(lists[i := list])[r] + multiset(lists[i])[r] == All(lists)[r] + multiset(list)[r]
  {
    var after := lists[i := list];
    assert All(after) == multiset(after[0]) + All(after[1..]);
    if i == 0 {
      assert after[1..] == lists[1..];
    } else {
      assert after[1..] == lists[1..][i - 1 := list];
      AllUpdated(lists[1..], i - 1, list, r);
    }
  }

  lemma {:induction false} AllAppended(lists: seq<seq<Record>>)
    ensures All(lists + [[]]) == All(lists)
  {
    if lists == [] {
      assert lists + [[]] == [[]];
    } else {
      assert (lists + [[]])[1..] == lists[1..] + [[]];
      AllAppended(lists[1..]);
    }
  }

  /** Every record added is on a list, delivered, at the failover, or lost. */
  predicate Conserved(s: State) {
    s.added == All(s.lists) + s.delivered + s.failedOver + s.lost
  }

  /** How often record `r` is accounted for. */
  function Accounted(s: State, r: Record): nat {
    All(s.lists)[r] + s.delivered[r] + s.failedOver[r] + s.lost[r]
  }

  lemma AppendedAccounts(s: State, target: nat, records: seq<Record>, r: Record)
    requires target < |s.lists|
    ensures Accounted(Appended(s, target, records), r) == Accounted(s, r) + multiset(records)[r]
  {
    AllUpdated(s.lists, target, s.lists[target] + records, r);
  }

  lemma AcceptedAccounts(s: State, i: nat, failover: bool, r: Record)
    requires Sound(s) && i < |s.commits| && s.commits[i].stage.Waiting?
    ensures Accounted(Accepted(s, i, failover), r) == Accounted(s, r)
  {
    assert CommitFits(s, s.commits[i]);
    var list, n := s.lists[s.commits[i].list], s.commits[i].stage.count;
    var cut := Max(n, Least(BUNDLE, |list|));
    AllUpdated(s.lists, s.commits[i].list, AfterBundle(list), r);
    assert cut == Least(BUNDLE, |list|);
    assert list == list[..n] + list[n..cut] + list[cut..];
    assert multiset(list) == multiset(list[..n]) + multiset(list[n..cut]) + multiset(list[cut..]);
  }

  lemma StepAccounts(s: State, step: Step, r: Record)
    requires Sound(s) && Enabled(s, step)
    ensures Accounted(Next(s, step), r) - Accounted(s, r) == Next(s, step).added[r] - s.added[r]
  {
    match step
    case EndAdd(id) => AppendedAccounts(s, s.adds[id].target, [s.adds[id].record], r);
    case Reply(i, attempt) => if !attempt.GaveUp? { AcceptedAccounts(s, i, attempt.FailedOver?, r); }
    case Extend(i) =>
      assert CommitFits(s, s.commits[i]);
      AllUpdated(s.lists, s.commits[i].list, [], r);
      AppendedAccounts(Emptied(s, i), s.commits[i].stage.target, s.lists[s.commits[i].list], r);
    case Start => AllAppended(s.lists);
    case _ =>
  }

  lemma StepConserves(s: State, step: Step)
    requires Sound(s) && Conserved(s) && Enabled(s, step)
    ensures Conserved(Next(s, step))
  {
    var t := Next(s, step);
    forall r ensures t.added[r] == Accounted(t, r) {
      StepAccounts(s, step, r);
      assert s.added[r] == Accounted(s, r);
    }
    forall r ensures t.added[r] == (All(t.lists) + t.delivered + t.failedOver + t.lost)[r] {}
  }

  /** The step loses records: they are appended to a list that another commit has taken since it was read and is
      through with; or they came into a commit's list behind a bundle under way that was not full. */
  ghost predicate Loses(s: State, step: Step)
    requires Sound(s) && Enabled(s, step)
  {
    match step
    case EndAdd(id) => Dead(s.commits, s.adds[id].target)
    case Extend(i) =>
      assert CommitFits(s, s.commits[i]);
      s.lists[s.commits[i].list] != [] && Dead(s.commits, s.commits[i].stage.target)
    case Reply(i, attempt) =>
      assert CommitFits(s, s.commits[i]);
      !attempt.GaveUp? && s.commits[i].stage.count < Least(BUNDLE, |s.lists[s.commits[i].list]|)
    case _ => false
  }

  /** A list that is current has been taken by nobody, so whoever takes it does so after it was read. */
  lemma CurrentIsAlive(s: State, i: nat)
    requires Sound(s) && i < |s.commits|
    ensures s.commits[i].list != s.current
  {
    assert CommitFits(s, s.commits[i]);
  }

  lemma DeadAfterwards(s: State, i: nat)
    requires Sound(s) && Enabled(s, Extend(i))
    ensures Dead(Emptied(s, i).commits, s.commits[i].stage.target) <==> Dead(s.commits, s.commits[i].stage.target)
  {
    assert CommitFits(s, s.commits[i]);
    var t, target := Emptied(s, i), s.commits[i].stage.target;
    if j :| 0 <= j < |s.commits| && s.commits[j].list == target && s.commits[j].stage.Done? {
      assert t.commits[j] == s.commits[j];
    }
    if j :| 0 <= j < |t.commits| && t.commits[j].list == target && t.commits[j].stage.Done? {
      assert j != i && t.commits[j] == s.commits[j];
    }
  }

  /** What is lost stays lost, and more is lost exactly by such a step. */
  lemma StepLoses(s: State, step: Step)
    requires Sound(s) && Enabled(s, step)
    ensures s.lost <= Next(s, step).lost
    ensures Next(s, step).lost == s.lost <==> !Loses(s, step)
  {
    match step
    case EndAdd(id) => MoreLost(s.lost, [s.adds[id].record]);
    case Extend(i) =>
      assert CommitFits(s, s.commits[i]);
      DeadAfterwards(s, i);
      MoreLost(s.lost, s.lists[s.commits[i].list]);
    case Reply(i, attempt) =>
      assert CommitFits(s, s.commits[i]);
      var list, n := s.lists[s.commits[i].list], s.commits[i].stage.count;
      MoreLost(s.lost, list[n..Max(n, Least(BUNDLE, |list|))]);
    case _ =>
  }

  lemma MoreLost(lost: multiset<Record>, records: seq<Record>)
    ensures lost + multiset(records) == lost <==> records == []
  {
    assert |lost + multiset(records)| == |lost| + |records|;
  }

  function CountSent(commits: seq<Commit>): nat {
    if commits == [] then 0 else commits[0].sent + CountSent(commits[1..])
  }

  lemma {:induction false} CountUpdated(commits: seq<Commit>, i: nat, c: Commit)
    requires i < |commits|
    ensures CountSent(commits[i := c]) + commits[i].sent == CountSent(commits) + c.sent
  {
    if i == 0 {
      assert commits[i := c][1..] == commits[1..];
    } else {
      assert commits[i := c][1..] == commits[1..][i - 1 := c];
      CountUpdated(commits[1..], i - 1, c);
    }
  }

  lemma {:induction false} CountAppended(commits: seq<Commit>, c: Commit)
    ensures CountSent(commits + [c]) == CountSent(commits) + c.sent
  {
    if commits == [] {
      assert commits + [c] == [c];
    } else {
      assert (commits + [c])[1..] == commits[1..] + [c];
      CountAppended(commits[1..], c);
    }
  }

  function ResultOf(c: Commit): CommitResult {
    if c.stage.Sending? || c.stage.Waiting? then CommitError else c.stage.result
  }

  predicate Reported(c: Commit) {
    ResultOf(c).Sent? ==> ResultOf(c).count == c.sent
  }

  /** The records that left are counted by the commit that sent them, and a success reports that count. */
  predicate Counted(s: State) {
    && |s.delivered| + |s.failedOver| == CountSent(s.commits)
    && (forall i :: 0 <= i < |s.commits| ==> Reported(s.commits[i]))
  }

  lemma StepCounts(s: State, step: Step)
    requires Sound(s) && Counted(s) && Enabled(s, step)
    ensures Counted(Next(s, step))
  {
    var t := Next(s, step);
    if step.Start? {
      CountAppended(s.commits, Commit(s.current, 0, Sending));
    } else if !step.BeginAdd? && !step.EndAdd? {
      var i := step.commit;
      assert CommitFits(s, s.commits[i]) && Reported(s.commits[i]);
      CommitStepCounts(s, step, t);
      CountUpdated(s.commits, i, t.commits[i]);
    }
  }

  lemma CommitStepCounts(s: State, step: Step, t: State)
    requires Sound(s) && Enabled(s, step) && !step.Start? && !step.BeginAdd? && !step.EndAdd? && t == Next(s, step)
    requires Reported(s.commits[step.commit])
    ensures |t.commits| == |s.commits| && t.commits == s.commits[step.commit := t.commits[step.commit]]
    ensures Reported(t.commits[step.commit])
    ensures |t.delivered| + |t.failedOver| + s.commits[step.commit].sent
         == |s.delivered| + |s.failedOver| + t.commits[step.commit].sent
  {
    assert CommitFits(s, s.commits[step.commit]);
  }

  ghost predicate CanRun(s: State, steps: seq<Step>)
    requires Sound(s)
    decreases |steps|
  {
    steps == [] || (Enabled(s, steps[0]) && (StepKeepsSound(s, steps[0]); CanRun(Next(s, steps[0]), steps[1..])))
  }

  ghost function Final(s: State, steps: seq<Step>): State
    requires Sound(s) && CanRun(s, steps)
    decreases |steps|
  {
    if steps == [] then s else (StepKeepsSound(s, steps[0]); Final(Next(s, steps[0]), steps[1..]))
  }

  ghost predicate LossFree(s: State, steps: seq<Step>)
    requires Sound(s) && CanRun(s, steps)
    decreases |steps|
  {
    steps == [] || (!Loses(s, steps[0]) && (StepKeepsSound(s, steps[0]); LossFree(Next(s, steps[0]), steps[1..])))
  }

  /** With any number of commits at once and any mix of failures, no record is sent twice, successes count what left,
      and records are lost if and only if some step of the run loses them. */
  lemma {:induction false} RunConserves(s: State, steps: seq<Step>)
    requires Sound(s) && Conserved(s) && Counted(s) && CanRun(s, steps)
    ensures var t := Final(s, steps);
      && Sound(t) && Conserved(t) && Counted(t) && s.lost <= t.lost
      && (t.lost == s.lost <==> LossFree(s, steps))
    decreases |steps|
  {
    if steps != [] {
      StepKeepsSound(s, steps[0]);
      StepConserves(s, steps[0]);
      StepCounts(s, steps[0]);
      StepLoses(s, steps[0]);
      RunConserves(Next(s, steps[0]), steps[1..]);
    }
  }

  /** A client with some records, and no commit yet, is such a start. */
  lemma StartIsAccounted(records: seq<Record>)
    ensures Sound(Fresh(records)) && Conserved(Fresh(records)) && Counted(Fresh(records))
    ensures Fresh(records).lost == multiset{} && Fresh(records).added == multiset(records)
  {
    assert [records][1..] == [];
  }

  // Two ways to lose a record.

  lemma RunFrom(s: State, steps: seq<Step>, k: nat, next: State, t: State)
    requires Sound(s) && k < |steps| && Enabled(s, steps[k]) && next == Next(s, steps[k])
    requires Sound(next) && CanRun(next, steps[k + 1..]) && Final(next, steps[k + 1..]) == t
    ensures CanRun(s, steps[k..]) && Final(s, steps[k..]) == t
  {
    assert steps[k..][1..] == steps[k + 1..];
  }

  function Fresh(records: seq<Record>): State {
    State([records], 0, [], map[], multiset(records), multiset{}, multiset{}, multiset{})
  }

  const FAILING := Commit(0, 0, Returning(CommitError, 1))

  /** The first commit has failed with a record left, and has read which list is current. */
  function HasRead(r: Record): State {
    Fresh([r]).(lists := [[r], []], current := 1, commits := [FAILING])
  }

  /** The second one has taken that list, and is through. */
  function HasTaken(r: Record): State {
    Fresh([r]).(lists := [[r], [], []], current := 2, commits := [FAILING, Commit(1, 0, Done(Sent(0)))])
  }

  lemma FirstStarts(r: Record)
    ensures var t := HasRead(r).(commits := [Commit(0, 0, Waiting(1))]);
      && Sound(Fresh([r])) && CanRun(Fresh([r]), [Start, Cut(0)])
      && Sound(t) && Final(Fresh([r]), [Start, Cut(0)]) == t
  {
    var s1 := HasRead(r).(commits := [Commit(0, 0, Sending)]);
    var s2 := HasRead(r).(commits := [Commit(0, 0, Waiting(1))]);
    assert Sound(s1) && Sound(s2) && [Start, Cut(0)][0..] == [Start, Cut(0)];
    RunFrom(s1, [Start, Cut(0)], 1, s2, s2);
    RunFrom(Fresh([r]), [Start, Cut(0)], 0, s1, s2);
  }

  lemma FirstFails(r: Record)
    ensures var steps := [Start, Cut(0)] + [Reply(0, GaveUp), ReadTarget(0)];
      Sound(Fresh([r])) && CanRun(Fresh([r]), steps) && Final(Fresh([r]), steps) == HasRead(r)
  {
    var steps := [Reply(0, GaveUp), ReadTarget(0)];
    var s2 := HasRead(r).(commits := [Commit(0, 0, Waiting(1))]);
    var s3 := HasRead(r).(commits := [Commit(0, 0, Leaving(CommitError))]);
    FirstStarts(r);
    assert Sound(s3) && steps[0..] == steps;
    RunFrom(s3, steps, 1, HasRead(r), HasRead(r));
    RunFrom(s2, steps, 0, s3, HasRead(r));
    RunsOn(Fresh([r]), [Start, Cut(0)], steps);
  }

  lemma SecondTakes(r: Record)
    ensures var steps := [Start, Finish(1), ReadTarget(1), Extend(1)];
      Sound(HasRead(r)) && CanRun(HasRead(r), steps) && Final(HasRead(r), steps) == HasTaken(r)
  {
    var steps := [Start, Finish(1), ReadTarget(1), Extend(1)];
    var s1 := HasTaken(r).(commits := [FAILING, Commit(1, 0, Sending)]);
    var s2 := HasTaken(r).(commits := [FAILING, Commit(1, 0, Leaving(Sent(0)))]);
    var s3 := HasTaken(r).(commits := [FAILING, Commit(1, 0, Returning(Sent(0), 2))]);
    TwoCommitsSound(r, Sending);
    TwoCommitsSound(r, Leaving(Sent(0)));
    TwoCommitsSound(r, Returning(Sent(0), 2));
    TwoCommitsSound(r, Done(Sent(0)));
    SecondIsThrough(s3, r);
    RunFrom(s3, steps, 3, HasTaken(r), HasTaken(r));
    RunFrom(s2, steps, 2, s3, HasTaken(r));
    RunFrom(s1, steps, 1, s2, HasTaken(r));
    RunFrom(HasRead(r), steps, 0, s1, HasTaken(r));
    assert steps[0..] == steps;
  }

  lemma TwoCommitsSound(r: Record, stage: Stage)
    requires stage.Returning? ==> stage.target == 2
    requires !stage.Waiting?
    ensures Sound(HasTaken(r).(commits := [FAILING, Commit(1, 0, stage)]))
  {}

  lemma SecondIsThrough(s: State, r: Record)
    requires s == HasTaken(r).(commits := [FAILING, Commit(1, 0, Returning(Sent(0), 2))]) && Sound(s)
    ensures Enabled(s, Extend(1)) && Next(s, Extend(1)) == HasTaken(r)
  {
    var emptied := Emptied(s, 1);
    assert !Dead(emptied.commits, 2);
    assert emptied.lists == [[r], [], []] && emptied.commits == HasTaken(r).commits;
    assert emptied.lists[2] + s.lists[1] == [];
    assert emptied.lists[2 := emptied.lists[2] + s.lists[1]] == [[r], [], []];
  }

  /** A commit fails and reads which list is current; another commit takes that list, finds it empty and is through;
      what the first one gives back is then on a list that nobody looks at. */
  lemma LeftoverIsLost(r: Record) returns (steps: seq<Step>, t: State)
    ensures Sound(Fresh([r])) && Conserved(Fresh([r])) && CanRun(Fresh([r]), steps) && t == Final(Fresh([r]), steps)
    ensures steps == [Start, Cut(0)] + [Reply(0, GaveUp), ReadTarget(0)] + [Start, Finish(1), ReadTarget(1), Extend(1)]
                   + [Extend(0)]
    ensures t.lost == t.added == multiset{r} && t.lists == [[], [], []]
  {
    var one, two := [Start, Cut(0)] + [Reply(0, GaveUp), ReadTarget(0)], [Start, Finish(1), ReadTarget(1), Extend(1)];
    FirstFails(r);
    SecondTakes(r);
    t := LastIsLost(r);
    RunsOn(Fresh([r]), one, two);
    RunsOn(Fresh([r]), one + two, [Extend(0)]);
    steps := one + two + [Extend(0)];
  }

  lemma LastIsLost(r: Record) returns (t: State)
    ensures Sound(HasTaken(r)) && CanRun(HasTaken(r), [Extend(0)]) && t == Final(HasTaken(r), [Extend(0)])
    ensures t.lost == t.added == multiset{r} && t.lists == [[], [], []]
  {
    var s := HasTaken(r);
    TwoCommitsSound(r, Done(Sent(0)));
    t := Next(s, Extend(0));
    StepKeepsSound(s, Extend(0));
    assert Dead(s.commits, 1) by { assert s.commits[1].list == 1; }
    DeadAfterwards(s, 0);
    RunFrom(s, [Extend(0)], 0, t, t);
  }

  lemma {:induction false} RunsOn(s: State, one: seq<Step>, two: seq<Step>)
    requires Sound(s) && CanRun(s, one) && Sound(Final(s, one)) && CanRun(Final(s, one), two)
    ensures CanRun(s, one + two) && Final(s, one + two) == Final(Final(s, one), two)
    decreases |one|
  {
    if one == [] {
      assert one + two == two;
    } else {
      StepKeepsSound(s, one[0]);
      RunsOn(Next(s, one[0]), one[1..], two);
      assert (one + two)[1..] == one[1..] + two;
    }
  }

  /** The record `q` was appended to the list while a bundle with only `r` is under way. */
  function HasJoined(r: Record, q: Record): State {
    Fresh([r]).(lists := [[r, q], []], current := 1, commits := [Commit(0, 0, Waiting(1))], added := multiset{r, q})
  }

  function BeforeJoining(r: Record, q: Record): State {
    HasJoined(r, q).(lists := [[r], []], adds := map[0 := Adding(q, 0)], added := multiset{r})
  }

  function Added(r: Record, q: Record): State {
    Fresh([r]).(adds := map[0 := Adding(q, 0)])
  }

  function Starting(r: Record, q: Record): State {
    BeforeJoining(r, q).(commits := [Commit(0, 0, Sending)])
  }

  lemma FirstBundleCut(r: Record, q: Record)
    ensures Sound(Starting(r, q)) && Sound(BeforeJoining(r, q)) && CanRun(Starting(r, q), [Cut(0)])
    ensures Final(Starting(r, q), [Cut(0)]) == BeforeJoining(r, q)
  {
    RunFrom(Starting(r, q), [Cut(0)], 0, BeforeJoining(r, q), BeforeJoining(r, q));
  }

  lemma ListIsTaken(r: Record, q: Record)
    ensures Sound(Added(r, q)) && Sound(Starting(r, q)) && CanRun(Added(r, q), [Start])
    ensures Final(Added(r, q), [Start]) == Starting(r, q)
  {
    RunFrom(Added(r, q), [Start], 0, Starting(r, q), Starting(r, q));
  }

  lemma CommitStarts(r: Record, q: Record)
    ensures Sound(Added(r, q)) && Sound(BeforeJoining(r, q)) && CanRun(Added(r, q), [Start, Cut(0)])
    ensures Final(Added(r, q), [Start, Cut(0)]) == BeforeJoining(r, q)
  {
    ListIsTaken(r, q);
    FirstBundleCut(r, q);
    RunsOn(Added(r, q), [Start], [Cut(0)]);
    assert [Start] + [Cut(0)] == [Start, Cut(0)];
  }

  lemma BundleIsCut(r: Record, q: Record)
    ensures var steps := [BeginAdd(0, q)] + [Start, Cut(0)];
      && Sound(Fresh([r])) && CanRun(Fresh([r]), steps)
      && Sound(BeforeJoining(r, q)) && Final(Fresh([r]), steps) == BeforeJoining(r, q)
  {
    CommitStarts(r, q);
    RunFrom(Fresh([r]), [BeginAdd(0, q)], 0, Added(r, q), Added(r, q));
    RunsOn(Fresh([r]), [BeginAdd(0, q)], [Start, Cut(0)]);
  }

  lemma RecordJoins(r: Record, q: Record)
    requires Sound(BeforeJoining(r, q))
    ensures Sound(HasJoined(r, q)) && CanRun(BeforeJoining(r, q), [EndAdd(0)])
    ensures Final(BeforeJoining(r, q), [EndAdd(0)]) == HasJoined(r, q)
  {
    var s := BeforeJoining(r, q);
    assert !Dead(s.commits, 0);
    assert s.adds - {0} == map[] && multiset{r} + multiset{q} == multiset{r, q};
    assert s.lists[0] + [q] == [r, q];
    assert s.lists[0 := s.lists[0] + [q]] == [[r, q], []];
    assert Next(s, EndAdd(0)) == HasJoined(r, q);
    RunFrom(s, [EndAdd(0)], 0, HasJoined(r, q), HasJoined(r, q));
  }

  lemma Joins(r: Record, q: Record)
    ensures var steps := [BeginAdd(0, q)] + [Start, Cut(0)] + [EndAdd(0)];
      Sound(Fresh([r])) && CanRun(Fresh([r]), steps) && Final(Fresh([r]), steps) == HasJoined(r, q)
  {
    BundleIsCut(r, q);
    RecordJoins(r, q);
    RunsOn(Fresh([r]), [BeginAdd(0, q)] + [Start, Cut(0)], [EndAdd(0)]);
  }

  lemma BundleLeaves(r: Record, q: Record) returns (next: State)
    ensures Sound(HasJoined(r, q)) && Enabled(HasJoined(r, q), Reply(0, Delivered))
    ensures next == Next(HasJoined(r, q), Reply(0, Delivered)) && Sound(next)
    ensures next
      == State([[], []], 1, [Commit(0, 1, Sending)], map[], multiset{r, q}, multiset{r}, multiset{}, multiset{q})
  {
    var s := HasJoined(r, q);
    assert Sound(s);
    next := Next(s, Reply(0, Delivered));
    OneOfTwo(s.lists[0], r, q);
    StepKeepsSound(s, Reply(0, Delivered));
  }

  lemma OneOfTwo(list: seq<Record>, r: Record, q: Record)
    requires list == [r, q]
    ensures list[..1] == [r] && list[1..Max(1, Least(BUNDLE, |list|))] == [q] && AfterBundle(list) == []
  {}

  lemma BundleArrives(r: Record, q: Record) returns (t: State)
    ensures Sound(HasJoined(r, q)) && CanRun(HasJoined(r, q), [Reply(0, Delivered), Finish(0)])
    ensures t == Final(HasJoined(r, q), [Reply(0, Delivered), Finish(0)])
    ensures t.lost == multiset{q} && t.delivered == multiset{r} && t.commits == [Commit(0, 1, Leaving(Sent(1)))]
  {
    var s, steps := HasJoined(r, q), [Reply(0, Delivered), Finish(0)];
    var next := BundleLeaves(r, q);
    t := Next(next, Finish(0));
    StepKeepsSound(next, Finish(0));
    RunFrom(next, steps, 1, t, t);
    RunFrom(s, steps, 0, next, t);
    assert steps[0..] == steps;
  }

  /** A record is added to a list that a commit took after the adding had read it, while a bundle is under way: when the
      bundle has arrived, what is taken off the list includes the record. The commit reports success. */
  lemma AddedMeanwhileIsLost(r: Record, q: Record) returns (steps: seq<Step>, t: State)
    ensures Sound(Fresh([r])) && Conserved(Fresh([r])) && CanRun(Fresh([r]), steps) && t == Final(Fresh([r]), steps)
    ensures steps == [BeginAdd(0, q)] + [Start, Cut(0)] + [EndAdd(0)] + [Reply(0, Delivered), Finish(0)]
    ensures t.lost == multiset{q} && t.delivered == multiset{r} && t.commits == [Commit(0, 1, Leaving(Sent(1)))]
  {
    Joins(r, q);
    t := BundleArrives(r, q);
    RunsOn(Fresh([r]), [BeginAdd(0, q)] + [Start, Cut(0)] + [EndAdd(0)], [Reply(0, Delivered), Finish(0)]);
    steps := [BeginAdd(0, q)] + [Start, Cut(0)] + [EndAdd(0)] + [Reply(0, Delivered), Finish(0)];
  }

  // Commits come to an end.

  function Rank(stage: Stage): nat {
    match stage
    case Sending => 4
    case Waiting(_) => 3
    case Leaving(_) => 2
    case Returning(_, _) => 1
    case Done(_) => 0
  }

  function Ranks(commits: seq<Commit>): nat {
    if commits == [] then 0 else Rank(commits[0].stage) + Ranks(commits[1..])
  }

  lemma {:induction false} RanksUpdated(commits: seq<Commit>, i: nat, c: Commit)
    requires i < |commits|
    ensures Ranks(commits[i := c]) + Rank(commits[i].stage) == Ranks(commits) + Rank(c.stage)
  {
    if i == 0 {
      assert commits[i := c][1..] == commits[1..];
    } else {
      assert commits[i := c][1..] == commits[1..][i - 1 := c];
      RanksUpdated(commits[1..], i - 1, c);
    }
  }

  lemma {:induction false} SizeUpdated(lists: seq<seq<Record>>, i: nat, list: seq<Record>)
    requires i < |lists|
    ensures |All(lists[i := list])| + |lists[i]| == |All(lists)| + |list|
  {
    var after := lists[i := list];
    assert |All(after)| == |after[0]| + |All(after[1..])| && |All(lists)| == |lists[0]| + |All(lists[1..])|;
    if i == 0 {
      assert after[1..] == lists[1..];
    } else {
      assert after[1..] == lists[1..][i - 1 := list];
      SizeUpdated(lists[1..], i - 1, list);
    }
  }

  /** Two steps for every record on a list, and as many for each commit as it has left. */
  function Effort(s: State): nat {
    2 * |All(s.lists)| + Ranks(s.commits)
  }

  lemma ReplyTakesEffort(s: State, i: nat, attempt: Attempt)
    requires Sound(s) && Enabled(s, Reply(i, attempt))
    ensures Effort(Next(s, Reply(i, attempt))) < Effort(s)
  {
    var t := Next(s, Reply(i, attempt));
    assert CommitFits(s, s.commits[i]);
    RanksUpdated(s.commits, i, t.commits[i]);
    if !attempt.GaveUp? { SizeUpdated(s.lists, s.commits[i].list, AfterBundle(s.lists[s.commits[i].list])); }
  }

  lemma ExtendTakesEffort(s: State, i: nat)
    requires Sound(s) && Enabled(s, Extend(i))
    ensures Effort(Next(s, Extend(i))) < Effort(s)
  {
    var l, target := s.commits[i].list, s.commits[i].stage.target;
    assert CommitFits(s, s.commits[i]);
    RanksUpdated(s.commits, i, s.commits[i].(stage := Done(s.commits[i].stage.result)));
    SizeUpdated(s.lists, l, []);
    SizeUpdated(s.lists[l := []], target, s.lists[target] + s.lists[l]);
  }

  lemma StepTakesEffort(s: State, step: Step)
    requires Sound(s) && Enabled(s, step) && !step.Start? && !step.BeginAdd? && !step.EndAdd?
    ensures Effort(Next(s, step)) < Effort(s)
  {
    if step.Reply? {
      ReplyTakesEffort(s, step.commit, step.attempt);
    } else if step.Extend? {
      ExtendTakesEffort(s, step.commit);
    } else {
      RanksUpdated(s.commits, step.commit, Next(s, step).commits[step.commit]);
    }
  }

  /** Commits cannot keep each other busy: without new commits and records, their steps come to an end, however they
      hand what is left to one another. */
  lemma {:induction false} CommitsEnd(s: State, steps: seq<Step>)
    requires Sound(s) && CanRun(s, steps)
    requires forall i :: 0 <= i < |steps| ==> !steps[i].Start? && !steps[i].BeginAdd? && !steps[i].EndAdd?
    ensures |steps| <= Effort(s)
    decreases |steps|
  {
    if steps != [] {
      StepKeepsSound(s, steps[0]);
      StepTakesEffort(s, steps[0]);
      CommitsEnd(Next(s, steps[0]), steps[1..]);
    }
  }
}
