/** The pool of module instances that the tasks of an executor share. */
module Executors {

  const FAST_TRACKS: nat := 10

  /** What processing a task in a module comes to. */
  datatype Result = Raised | Failed | Processed(freeze: bool, fastTrack: string)

  /** How a task ends: an error of the executor, or a message to the mind. */
  datatype Outcome = ExecutorError | TaskError | TaskFreeze | TaskDone

  datatype Message = ErrorMessage | OutcomeMessage(outcome: Outcome)

  datatype Stage =
    | Wanting(module_: string, level: nat)
    | Using(module_: string, level: nat, instance: nat)
    | Storing(module_: string, level: nat, instance: nat, result: Result)
    | Ended(outcome: Outcome)
    | Answered

  /** A module that processed a task, and what came of it. */
  datatype Said = Said(module_: string, result: Result)

  /** `wanted` is the module the task was sent to, and `done` remembers those it went through. */
  datatype Task = Task(stage: Stage, wanted: string, done: seq<Said>)

  datatype Sending = Sending(task: nat, created: bool, message: Message)

  /** Where an instance is; `Used` names the task that has it. */
  datatype Place = Pooled(module_: string) | Used(task: nat) | Dropped

  /** `places` remembers every instance ever made, `sent` every message. */
  datatype State = State(modules: set<string>, pools: map<string, seq<nat>>, tasks: map<nat, Task>,
                         places: map<nat, Place>, sent: seq<Sending>)

  datatype Step =
    | Start(task: nat, module_: string)
    | GetInstance(task: nat, made: nat)
    | Process(task: nat, result: Result)
    | StoreInstance(task: nat)
    | Send(task: nat, created: bool)

  function Pool(s: State, m: string): seq<nat> {
    if m in s.pools then s.pools[m] else []
  }

  predicate Enabled(s: State, step: Step) {
    match step
    case Start(t, _) => t !in s.tasks
    case GetInstance(t, made) => t in s.tasks && s.tasks[t].stage.Wanting? && made !in s.places
    case Process(t, _) => t in s.tasks && s.tasks[t].stage.Using?
    case StoreInstance(t) => t in s.tasks && s.tasks[t].stage.Storing?
    case Send(t, _) => t in s.tasks && s.tasks[t].stage.Ended?
  }

  /** The module at that level sent the task on to another that is known, and this is not once too often. */
  predicate GoesOn(modules: set<string>, level: nat, r: Result) {
    r.Processed? && !r.freeze && r.fastTrack != "" && level < FAST_TRACKS && r.fastTrack in modules
  }

  /** From `level` on, the task goes from module to module just as each says. */
  predicate Follows(modules: set<string>, level: nat, done: seq<Said>) {
    forall k :: 0 <= k < |done| ==> SentOn(modules, level, done, k)
  }

  predicate SentOn(modules: set<string>, level: nat, done: seq<Said>, k: nat)
    requires k < |done|
  {
    k > 0 ==>
      GoesOn(modules, level + (k - 1), done[k - 1].result) && done[k].module_ == done[k - 1].result.fastTrack
  }

  /** The last module does not send it on, and the outcome is what that module makes of it. */
  predicate EndsWith(modules: set<string>, level: nat, done: seq<Said>, outcome: Outcome) {
    if done == [] then outcome == ExecutorError
    else
      var last := done[|done| - 1].result;
      && !GoesOn(modules, level + (|done| - 1), last)
      && (outcome == ExecutorError <==> last.Raised?)
      && (outcome == TaskError <==> last.Failed?)
      && (outcome == TaskFreeze <==> last.Processed? && last.freeze)
  }

  /** The message that such an outcome leads to. */
  predicate Tells(modules: set<string>, done: seq<Said>, created: bool, message: Message) {
    if message.ErrorMessage? then !created || EndsWith(modules, 0, done, ExecutorError)
    else created && message.outcome != ExecutorError && EndsWith(modules, 0, done, message.outcome)
  }

  /** After its instance is back in the pool, the task ends or goes on to another module at once. */
  function Onward(s: State, level: nat, result: Result): Stage {
    match result
    case Raised => Ended(ExecutorError)
    case Failed => Ended(TaskError)
    case Processed(freeze, fastTrack) =>
      if freeze then Ended(TaskFreeze)
      else if fastTrack != "" && level < FAST_TRACKS && fastTrack in s.modules then Wanting(fastTrack, level + 1)
      else Ended(TaskDone)
  }

  function Next(s: State, step: Step): State
    requires Enabled(s, step)
  {
    match step
    case Start(t, m) => s.(tasks := s.tasks[t := Task(Wanting(m, 0), m, [])])
    case GetInstance(t, made) =>
      var Task(Wanting(m, level), wanted, done) := s.tasks[t];
      var pool := Pool(s, m);
      if pool != [] then
        s.(pools := s.pools[m := pool[1..]], places := s.places[pool[0] := Used(t)],
           tasks := s.tasks[t := Task(Using(m, level, pool[0]), wanted, done)])
      else if m in s.modules then
        s.(pools := s.pools[m := []], places := s.places[made := Used(t)],
           tasks := s.tasks[t := Task(Using(m, level, made), wanted, done)])
      else
        s.(pools := s.pools[m := []], tasks := s.tasks[t := Task(Ended(ExecutorError), wanted, done)])
    case Process(t, result) =>
      var Task(Using(m, level, i), wanted, done) := s.tasks[t];
      var now := done + [Said(m, result)];
      if result.Raised? then
        s.(places := s.places[i := Dropped], tasks := s.tasks[t := Task(Ended(ExecutorError), wanted, now)])
      else
        s.(tasks := s.tasks[t := Task(Storing(m, level, i, result), wanted, now)])
    case StoreInstance(t) =>
      var Task(Storing(m, level, i, result), wanted, done) := s.tasks[t];
      s.(pools := s.pools[m := Pool(s, m) + [i]], places := s.places[i := Pooled(m)],
         tasks := s.tasks[t := Task(Onward(s, level, result), wanted, done)])
    case Send(t, created) =>
      var outcome := s.tasks[t].stage.outcome;
      var message := if outcome.ExecutorError? || !created then ErrorMessage else OutcomeMessage(outcome);
      s.(tasks := s.tasks[t := s.tasks[t].(stage := Answered)], sent := s.sent + [Sending(t, created, message)])
  }

  predicate CanRun(s: State, steps: seq<Step>)
    decreases |steps|
  {
    steps == [] || (Enabled(s, steps[0]) && CanRun(Next(s, steps[0]), steps[1..]))
  }

  function Final(s: State, steps: seq<Step>): State
    requires CanRun(s, steps)
    decreases |steps|
  {
    if steps == [] then s else Final(Next(s, steps[0]), steps[1..])
  }

  // What every step keeps.

  predicate Has(stage: Stage, i: nat) {
    (stage.Using? || stage.Storing?) && stage.instance == i
  }

  predicate NoDuplicates(s: seq<nat>) {
    forall i, j :: 0 <= i < j < |s| ==> s[i] != s[j]
  }

  predicate PoolFits(s: State, m: string)
    requires m in s.pools
  {
    NoDuplicates(s.pools[m]) && forall i :: i in s.pools[m] ==> i in s.places && s.places[i] == Pooled(m)
  }

  predicate PlaceFits(s: State, i: nat)
    requires i in s.places
  {
    match s.places[i]
    case Pooled(m) => m in s.pools && i in s.pools[m]
    case Used(t) => t in s.tasks && Has(s.tasks[t].stage, i)
    case Dropped => true
  }

  /** A task has an instance only if the instance's place says so, and it went through one module per level. */
  predicate TaskFits(s: State, t: nat)
    requires t in s.tasks
  {
    var Task(stage, _, done) := s.tasks[t];
    && (stage.Using? || stage.Storing? ==> stage.instance in s.places && s.places[stage.instance] == Used(t))
    && (stage.Wanting? || stage.Using? ==> |done| == stage.level <= FAST_TRACKS)
    && (stage.Storing? ==> |done| == stage.level + 1 && stage.level <= FAST_TRACKS && !stage.result.Raised?)
    && |done| <= FAST_TRACKS + 1
  }

  predicate SentFits(s: State) {
    && (forall k :: 0 <= k < |s.sent| ==> s.sent[k].task in s.tasks && s.tasks[s.sent[k].task].stage.Answered?)
    && (forall j, k :: 0 <= j < k < |s.sent| ==> s.sent[j].task != s.sent[k].task)
    && (forall t :: t in s.tasks && s.tasks[t].stage.Answered? ==> Wrote(s, t))
  }

  predicate Wrote(s: State, t: nat) {
    exists k :: 0 <= k < |s.sent| && s.sent[k].task == t
  }

  predicate Sound(s: State) {
    && (forall m :: m in s.pools ==> PoolFits(s, m))
    && (forall i :: i in s.places ==> PlaceFits(s, i))
    && (forall t :: t in s.tasks ==> TaskFits(s, t))
    && SentFits(s)
  }

  lemma EmptyIsSound(modules: set<string>)
    ensures Sound(State(modules, map[], map[], map[], []))
  {}

  lemma GetPooledIsSound(s: State, t: nat, made: nat)
    requires Sound(s) && Enabled(s, GetInstance(t, made)) && Pool(s, s.tasks[t].stage.module_) != []
    ensures Sound(Next(s, GetInstance(t, made)))
  {
    var u, m := Next(s, GetInstance(t, made)), s.tasks[t].stage.module_;
    var i := s.pools[m][0];
    assert TaskFits(s, t) && PoolFits(s, m);
    assert s.pools[m] == [i] + u.pools[m] && i in s.pools[m];
    assert i in s.places && s.places[i] == Pooled(m);
    forall n | n in u.pools ensures PoolFits(u, n) { assert PoolFits(s, n); }
    forall j | j in u.places ensures PlaceFits(u, j) { assert PlaceFits(s, j); }
    forall v | v in u.tasks ensures TaskFits(u, v) { assert TaskFits(s, v); }
    SentStillFits(s, u);
  }

  lemma GetMadeIsSound(s: State, t: nat, made: nat)
    requires Sound(s) && Enabled(s, GetInstance(t, made)) && Pool(s, s.tasks[t].stage.module_) == []
    ensures Sound(Next(s, GetInstance(t, made)))
  {
    var u := Next(s, GetInstance(t, made));
    assert TaskFits(s, t);
    forall n | n in u.pools ensures PoolFits(u, n) { if n in s.pools { assert PoolFits(s, n); } }
    forall i | i in u.places ensures PlaceFits(u, i) { if i in s.places { assert PlaceFits(s, i); } }
    forall v | v in u.tasks ensures TaskFits(u, v) { assert TaskFits(s, v); }
    SentStillFits(s, u);
  }

  lemma ProcessIsSound(s: State, t: nat, result: Result)
    requires Sound(s) && Enabled(s, Process(t, result))
    ensures Sound(Next(s, Process(t, result)))
  {
    var u := Next(s, Process(t, result));
    assert TaskFits(s, t);
    forall n | n in u.pools ensures PoolFits(u, n) { assert PoolFits(s, n); }
    forall i | i in u.places ensures PlaceFits(u, i) { assert PlaceFits(s, i); }
    forall v | v in u.tasks ensures TaskFits(u, v) { assert TaskFits(s, v); }
    SentStillFits(s, u);
  }

  lemma StoreIsSound(s: State, t: nat)
    requires Sound(s) && Enabled(s, StoreInstance(t))
    ensures Sound(Next(s, StoreInstance(t)))
  {
    var u := Next(s, StoreInstance(t));
    assert TaskFits(s, t);
    forall n | n in u.pools ensures PoolFits(u, n) { if n in s.pools { assert PoolFits(s, n); } }
    forall i | i in u.places ensures PlaceFits(u, i) { assert PlaceFits(s, i); }
    forall v | v in u.tasks ensures TaskFits(u, v) { assert TaskFits(s, v); }
    SentStillFits(s, u);
  }

  lemma SentStillFits(s: State, u: State)
    requires SentFits(s) && u.sent == s.sent && s.tasks.Keys <= u.tasks.Keys
    requires forall t :: t in u.tasks ==> (u.tasks[t].stage.Answered? <==> t in s.tasks && s.tasks[t].stage.Answered?)
    ensures SentFits(u)
  {}

  lemma SendIsSound(s: State, t: nat, created: bool)
    requires Sound(s) && Enabled(s, Send(t, created))
    ensures Sound(Next(s, Send(t, created)))
  {
    var u := Next(s, Send(t, created));
    assert TaskFits(s, t);
    forall n | n in u.pools ensures PoolFits(u, n) { assert PoolFits(s, n); }
    forall i | i in u.places ensures PlaceFits(u, i) { assert PlaceFits(s, i); }
    forall v | v in u.tasks ensures TaskFits(u, v) { assert TaskFits(s, v); }
    forall v | v in u.tasks && u.tasks[v].stage.Answered? ensures Wrote(u, v) {
      if v == t {
        assert u.sent[|s.sent|].task == t;
      } else {
        assert Wrote(s, v);
        var k :| 0 <= k < |s.sent| && s.sent[k].task == v;
        assert u.sent[k].task == v;
      }
    }
  }

  lemma StartIsSound(s: State, t: nat, m: string)
    requires Sound(s) && Enabled(s, Start(t, m))
    ensures Sound(Next(s, Start(t, m)))
  {
    var u := Next(s, Start(t, m));
    forall n | n in u.pools ensures PoolFits(u, n) { assert PoolFits(s, n); }
    forall i | i in u.places ensures PlaceFits(u, i) { assert PlaceFits(s, i); }
    forall v | v in u.tasks ensures TaskFits(u, v) { if v in s.tasks { assert TaskFits(s, v); } }
    SentStillFits(s, u);
  }

  lemma StepIsSound(s: State, step: Step)
    requires Sound(s) && Enabled(s, step)
    ensures Sound(Next(s, step))
  {
    match step
    case Start(t, m) => StartIsSound(s, t, m);
    case GetInstance(t, made) =>
      if Pool(s, s.tasks[t].stage.module_) != [] { GetPooledIsSound(s, t, made); } else { GetMadeIsSound(s, t, made); }
    case Process(t, result) => ProcessIsSound(s, t, result);
    case StoreInstance(t) => StoreIsSound(s, t);
    case Send(t, created) => SendIsSound(s, t, created);
  }

  lemma {:induction false} RunIsSound(s: State, steps: seq<Step>)
    requires Sound(s) && CanRun(s, steps)
    ensures Sound(Final(s, steps))
    decreases |steps|
  {
    if steps != [] {
      StepIsSound(s, steps[0]);
      RunIsSound(Next(s, steps[0]), steps[1..]);
    }
  }

  /** Over any interleaving, no instance serves two tasks or waits in a pool while it serves one, no task goes through
      more than eleven modules, and none is answered twice. */
  lemma InstancesAreExclusive(s: State, steps: seq<Step>, t: nat, u: nat, i: nat)
    requires Sound(s) && CanRun(s, steps)
    ensures var f := Final(s, steps);
      && (t in f.tasks && u in f.tasks && Has(f.tasks[t].stage, i) && Has(f.tasks[u].stage, i) ==> t == u)
      && (t in f.tasks && Has(f.tasks[t].stage, i) ==> forall m :: m in f.pools ==> i !in f.pools[m])
      && (t in f.tasks ==> |f.tasks[t].done| <= FAST_TRACKS + 1)
      && (forall j, k :: 0 <= j < k < |f.sent| ==> f.sent[j].task != f.sent[k].task)
  {
    RunIsSound(s, steps);
    var f := Final(s, steps);
    if t in f.tasks { assert TaskFits(f, t); }
    if u in f.tasks { assert TaskFits(f, u); }
    if t in f.tasks && Has(f.tasks[t].stage, i) {
      forall m | m in f.pools ensures i !in f.pools[m] { assert PoolFits(f, m); }
    }
  }

  // What the tasks went through, and what they were answered.

  /** The task went from the module it was sent to as each module said, and is where the last of them leaves it. */
  predicate HistoryFits(modules: set<string>, task: Task) {
    var Task(stage, wanted, done) := task;
    && Follows(modules, 0, done) && (done != [] ==> done[0].module_ == wanted)
    && ((stage.Ended? || stage.Answered?) && done == [] ==> wanted !in modules)
    && match stage
       case Wanting(m, level) => NextIs(modules, m, level, wanted, done)
       case Using(m, level, _) => NextIs(modules, m, level, wanted, done)
       case Storing(m, level, _, result) => |done| == level + 1 && done[level] == Said(m, result) && !result.Raised?
       case Ended(outcome) => EndsWith(modules, 0, done, outcome)
       case Answered => true
  }

  predicate NextIs(modules: set<string>, m: string, level: nat, wanted: string, done: seq<Said>) {
    && |done| == level
    && if level == 0 then m == wanted
       else GoesOn(modules, level - 1, done[level - 1].result) && m == done[level - 1].result.fastTrack
  }

  predicate SendingFits(s: State, sent: Sending) {
    && sent.task in s.tasks && s.tasks[sent.task].stage.Answered?
    && Tells(s.modules, s.tasks[sent.task].done, sent.created, sent.message)
  }

  predicate Truthful(s: State) {
    && (forall t :: t in s.tasks ==> HistoryFits(s.modules, s.tasks[t]))
    && (forall k :: 0 <= k < |s.sent| ==> SendingFits(s, s.sent[k]))
  }

  lemma StageOf(s: State, step: Step, t: nat)
    requires Enabled(s, step) && Truthful(s)
    requires match step
      case Start(_, _) => false
      case GetInstance(u, _) => t == u
      case Process(u, _) => t == u
      case StoreInstance(u) => t == u
      case Send(_, _) => false
    ensures HistoryFits(s.modules, Next(s, step).tasks[t])
  {
    assert HistoryFits(s.modules, s.tasks[t]);
    var done, done' := s.tasks[t].done, Next(s, step).tasks[t].done;
    if step.Process? {
      forall k | 0 <= k < |done'| ensures SentOn(s.modules, 0, done', k) {
        if k < |done| { assert SentOn(s.modules, 0, done, k); }
      }
    }
  }

  lemma StepKeepsTruth(s: State, step: Step)
    requires Enabled(s, step) && Truthful(s)
    ensures Truthful(Next(s, step))
  {
    var u := Next(s, step);
    var t := step.task;
    if step.GetInstance? || step.Process? || step.StoreInstance? { StageOf(s, step, t); }
    forall v | v in u.tasks ensures HistoryFits(u.modules, u.tasks[v]) {
      if v in s.tasks { assert HistoryFits(s.modules, s.tasks[v]); }
    }
    forall k | 0 <= k < |u.sent| ensures SendingFits(u, u.sent[k]) {
      if k < |s.sent| { assert SendingFits(s, s.sent[k]); }
    }
  }

  lemma {:induction false} RunKeepsTruth(s: State, steps: seq<Step>)
    requires CanRun(s, steps) && Truthful(s)
    ensures Truthful(Final(s, steps)) && Final(s, steps).modules == s.modules
    decreases |steps|
  {
    if steps != [] {
      StepKeepsTruth(s, steps[0]);
      RunKeepsTruth(Next(s, steps[0]), steps[1..]);
    }
  }

  /** Over any interleaving, every task that is answered went from the module it was sent to as each module said, to the
      first that did not send it on, and the answer says what came of it there. */
  lemma AnswersAreTrue(modules: set<string>, steps: seq<Step>, k: nat)
    requires var s := State(modules, map[], map[], map[], []); CanRun(s, steps) && k < |Final(s, steps).sent|
    ensures var f := Final(State(modules, map[], map[], map[], []), steps);
      var Sending(t, created, message) := f.sent[k];
      && t in f.tasks && Follows(modules, 0, f.tasks[t].done) && Tells(modules, f.tasks[t].done, created, message)
      && (if f.tasks[t].done != [] then f.tasks[t].done[0].module_ == f.tasks[t].wanted
          else f.tasks[t].wanted !in modules)
  {
    var s := State(modules, map[], map[], map[], []);
    RunKeepsTruth(s, steps);
    var f := Final(s, steps);
    assert SendingFits(f, f.sent[k]) && HistoryFits(modules, f.tasks[f.sent[k].task]);
  }

  predicate InPool(s: State, i: nat) {
    exists m :: m in s.pools && i in s.pools[m]
  }

  predicate WithTask(s: State, i: nat) {
    exists t :: t in s.tasks && Has(s.tasks[t].stage, i)
  }

  lemma Located(s: State, i: nat)
    requires Sound(s)
    ensures InPool(s, i) <==> i in s.places && s.places[i].Pooled?
    ensures WithTask(s, i) <==> i in s.places && s.places[i].Used?
  {}

  function PooledInstances(s: State): set<nat> {
    set i | i in s.places && InPool(s, i)
  }

  function UsedInstances(s: State): set<nat> {
    set i | i in s.places && WithTask(s, i)
  }

  function DroppedInstances(s: State): set<nat> {
    set i | i in s.places && s.places[i].Dropped?
  }

  /** Every instance ever made is in a pool, with a task, or was dropped by an exception, and only there. */
  lemma InstancesAreCounted(s: State, steps: seq<Step>)
    requires Sound(s) && CanRun(s, steps)
    ensures var f := Final(s, steps);
      && |f.places| == |PooledInstances(f)| + |UsedInstances(f)| + |DroppedInstances(f)|
      && forall i: nat :: InPool(f, i) || WithTask(f, i) ==> i in f.places
  {
    RunIsSound(s, steps);
    var f := Final(s, steps);
    forall i: nat ensures (InPool(f, i) <==> i in f.places && f.places[i].Pooled?)
      && (WithTask(f, i) <==> i in f.places && f.places[i].Used?) {
      Located(f, i);
    }
    Partition(f.places.Keys, PooledInstances(f), UsedInstances(f), DroppedInstances(f));
  }

  lemma Partition(all: set<nat>, one: set<nat>, two: set<nat>, three: set<nat>)
    requires one <= all && two <= all && three <= all
    requires forall i :: i in all ==>
      (i in one && i !in two && i !in three) || (i !in one && i in two && i !in three)
        || (i !in one && i !in two && i in three)
    ensures |all| == |one| + |two| + |three|
  {
    assert all == one + two + three && one !! two && (one + two) !! three;
  }

  // One task after the other, as one thread sees the pools.

  /** The instances made are numbered from zero. Each is in a pool, dropped or out, and only there. */
  ghost predicate AllPlaced(pooled: set<nat>, dropped: seq<nat>, out: set<nat>, created: nat) {
    forall i: nat :: PlacedOnce(i, pooled, dropped, out, created)
  }

  predicate PlacedOnce(i: nat, pooled: set<nat>, dropped: seq<nat>, out: set<nat>, created: nat) {
    && (i < created <==> i in pooled || i in dropped || i in out)
    && !(i in pooled && i in dropped) && !(i in pooled && i in out) && !(i in dropped && i in out)
  }

  lemma ComesOut(i: nat, pooled: set<nat>, dropped: seq<nat>, created: nat)
    requires AllPlaced(pooled, dropped, {}, created) && i in pooled
    ensures AllPlaced(pooled - {i}, dropped, {i}, created) && i < created
  {
    forall j: nat ensures PlacedOnce(j, pooled - {i}, dropped, {i}, created) {
      assert PlacedOnce(j, pooled, dropped, {}, created);
    }
    assert PlacedOnce(i, pooled, dropped, {}, created);
  }

  lemma IsMade(pooled: set<nat>, dropped: seq<nat>, created: nat)
    requires AllPlaced(pooled, dropped, {}, created)
    ensures AllPlaced(pooled, dropped, {created}, created + 1)
  {
    var more := created + 1;
    forall j: nat ensures PlacedOnce(j, pooled, dropped, {created}, more) {
      assert PlacedOnce(j, pooled, dropped, {}, created);
    }
  }

  lemma GoesBack(i: nat, pooled: set<nat>, dropped: seq<nat>, created: nat)
    requires AllPlaced(pooled, dropped, {i}, created)
    ensures AllPlaced(pooled + {i}, dropped, {}, created) && i !in pooled
  {
    forall j: nat ensures PlacedOnce(j, pooled + {i}, dropped, {}, created) {
      assert PlacedOnce(j, pooled, dropped, {i}, created);
    }
    assert PlacedOnce(i, pooled, dropped, {i}, created);
  }

  lemma IsDropped(i: nat, pooled: set<nat>, dropped: seq<nat>, created: nat)
    requires AllPlaced(pooled, dropped, {i}, created)
    ensures AllPlaced(pooled, dropped + [i], {}, created)
  {
    forall j: nat ensures PlacedOnce(j, pooled, dropped + [i], {}, created) {
      assert PlacedOnce(j, pooled, dropped, {i}, created);
    }
  }

  /** No instance is in two pools, or twice in one. */
  ghost predicate PoolsFit(instances: map<string, seq<nat>>, pooled: set<nat>) {
    && (forall m :: m in instances ==> NoDuplicates(instances[m]))
    && (forall m, i :: m in instances && i in instances[m] ==> i in pooled)
    && (forall m, n, i :: m in instances && n in instances && i in instances[m] && i in instances[n] ==> m == n)
  }

  lemma Popped(instances: map<string, seq<nat>>, pooled: set<nat>, m: string)
    requires PoolsFit(instances, pooled) && m in instances && instances[m] != []
    ensures instances[m][0] in pooled && PoolsFit(instances[m := instances[m][1..]], pooled - {instances[m][0]})
  {}

  lemma Pushed(instances: map<string, seq<nat>>, pooled: set<nat>, m: string, i: nat)
    requires PoolsFit(instances, pooled) && m in instances && i !in pooled
    ensures PoolsFit(instances[m := instances[m] + [i]], pooled + {i})
  {}

  lemma AddedPool(instances: map<string, seq<nat>>, pooled: set<nat>, m: string)
    requires PoolsFit(instances, pooled) && m !in instances
    ensures PoolsFit(instances[m := []], pooled)
  {}

  /** An instance waits in the pool of the module. */
  predicate Waits(instances: map<string, seq<nat>>, m: string) {
    m in instances && instances[m] != []
  }

  /** The pools without the first instance of the module, if there is one. */
  function Taken(instances: map<string, seq<nat>>, m: string): map<string, seq<nat>> {
    instances[m := if Waits(instances, m) then instances[m][1..] else []]
  }

  /** What one thread does with a task, `answers` holding what the module at each level says. */
  function Route(modules: set<string>, m: string, level: nat, answers: nat -> Result): seq<Said>
    decreases FAST_TRACKS - level
  {
    var result := answers(level);
    if GoesOn(modules, level, result) then
      [Said(m, result)] + Route(modules, result.fastTrack, level + 1, answers)
    else [Said(m, result)]
  }

  lemma Grown(log: seq<Said>, first: Said, rest: seq<Said>)
    ensures (log + [first]) + rest == log + ([first] + rest)
  {}

  function OutcomeOf(result: Result): Outcome {
    match result
    case Raised => ExecutorError
    case Failed => TaskError
    case Processed(freeze, _) => if freeze then TaskFreeze else TaskDone
  }

  predicate Heard(level: nat, answers: nat -> Result, done: seq<Said>, k: nat)
    requires k < |done|
  {
    done[k].result == answers(level + k)
  }

  /** The modules of the route said what they had to say at their levels, each is the one that the one before sent the
      task on to, and the last one sends it no further. */
  lemma {:induction false} RouteIs(modules: set<string>, m: string, level: nat, answers: nat -> Result)
    requires level <= FAST_TRACKS
    ensures var done := Route(modules, m, level, answers);
      && done != [] && done[0].module_ == m && |done| <= FAST_TRACKS + 1 - level
      && Follows(modules, level, done)
      && (forall k :: 0 <= k < |done| ==> Heard(level, answers, done, k))
      && EndsWith(modules, level, done, OutcomeOf(done[|done| - 1].result))
    decreases FAST_TRACKS - level
  {
    var result, done := answers(level), Route(modules, m, level, answers);
    if GoesOn(modules, level, result) {
      var rest := Route(modules, result.fastTrack, level + 1, answers);
      RouteIs(modules, result.fastTrack, level + 1, answers);
      forall k | 0 <= k < |done| ensures SentOn(modules, level, done, k) && Heard(level, answers, done, k) {
        if k > 0 { OneLevelUp(modules, level, answers, rest, Said(m, result), k); }
      }
    }
  }

  lemma OneLevelUp(modules: set<string>, level: nat, answers: nat -> Result, rest: seq<Said>, first: Said, k: nat)
    requires 0 < k <= |rest| && GoesOn(modules, level, first.result) && rest[0].module_ == first.result.fastTrack
    requires Heard(level + 1, answers, rest, k - 1) && SentOn(modules, level + 1, rest, k - 1)
    ensures SentOn(modules, level, [first] + rest, k) && Heard(level, answers, [first] + rest, k)
  {
    var done := [first] + rest;
    assert done[k] == rest[k - 1];
    if k > 1 { assert done[k - 1] == rest[k - 1 - 1]; }
  }

  class MindCluster {
    const modules: set<string>
    var instances: map<string, seq<nat>>
    var created: nat
    ghost var pooled: set<nat>
    ghost var dropped: seq<nat>
    ghost var log: seq<Said>

    /** Every instance made is in one pool, was dropped, or is among those that are `out`. */
    ghost predicate Valid(out: set<nat>)
      reads this
    {
      AllPlaced(pooled, dropped, out, created) && PoolsFit(instances, pooled)
    }

    constructor (modules: set<string>)
      ensures Valid({}) && this.modules == modules
    {
      this.modules, instances, created, pooled, dropped, log := modules, map[], 0, {}, [], [];
    }

    /** What GetInstance does under the lock: the oldest instance of the pool, if there is one. */
    method PopInstance(m: string) returns (ok: bool, instance: nat)
      requires Valid({})
      modifies `instances, `pooled
      ensures m in instances && Valid(if ok then {instance} else {})
      ensures ok == (m in old(instances) && old(instances)[m] != [])
      ensures ok ==> instance == old(instances)[m][0] && instance < created
      ensures instances == Taken(old(instances), m)
    {
      instance := 0;
      ok := m in instances && instances[m] != [];
      if ok {
        instance := instances[m][0];
        Popped(instances, pooled, m);
        ComesOut(instance, pooled, dropped, created);
        instances := instances[m := instances[m][1..]];
        pooled := pooled - {instance};
      } else if m !in instances {
        AddedPool(instances, pooled, m);
        instances := instances[m := []];
      }
    }

    /** A pooled instance, the oldest one, else a new one; none for an unknown module. */
    method GetInstance(m: string) returns (ok: bool, instance: nat)
      requires Valid({})
      modifies `instances, `pooled, `created
      ensures ok == (m in modules || Waits(old(instances), m))
      ensures Valid(if ok then {instance} else {}) && instances == Taken(old(instances), m)
      ensures ok ==> instance == if Waits(old(instances), m) then old(instances)[m][0] else old(created)
      ensures created == if ok && !Waits(old(instances), m) then old(created) + 1 else old(created)
    {
      ok, instance := PopInstance(m);
      if ok || m !in modules { return; }
      IsMade(pooled, dropped, created);
      ok, instance := true, created;
      created := created + 1;
    }

    method StoreInstance(m: string, instance: nat)
      requires Valid({instance}) && m in instances
      modifies `instances, `pooled
      ensures Valid({}) && instances == old(instances)[m := old(instances)[m] + [instance]]
    {
      GoesBack(instance, pooled, dropped, created);
      Pushed(instances, pooled, m, instance);
      instances := instances[m := instances[m] + [instance]];
      pooled := pooled + {instance};
    }

    method ExProcessTask(m: string, answer: Result) returns (result: Result)
      modifies `log
      ensures result == answer && log == old(log) + [Said(m, result)]
    {
      result := answer;
      log := log + [Said(m, result)];
    }

    /** Lets one module process the task; only an exception keeps its instance from going back to the pool. */
    method RunModule(m: string, answer: Result) returns (ok: bool, result: Result)
      requires Valid({})
      modifies this
      ensures Valid({}) && ok == (m in modules || Waits(old(instances), m))
      ensures ok ==> result == answer && log == old(log) + [Said(m, result)]
      ensures !ok ==> log == old(log)
      ensures ok && result.Raised? ==>
        && instances == Taken(old(instances), m)
        && dropped == old(dropped) + [if Waits(old(instances), m) then old(instances)[m][0] else old(created)]
      ensures !(ok && result.Raised?) ==> dropped == old(dropped)
      ensures ok && !result.Raised? ==>
        var instance := if Waits(old(instances), m) then old(instances)[m][0] else old(created);
        instances == Taken(old(instances), m)[m := Taken(old(instances), m)[m] + [instance]]
    {
      var instance;
      result := Failed;
      ok, instance := GetInstance(m);
      if !ok { return; }
      result := ExProcessTask(m, answer);
      if result.Raised? {
        IsDropped(instance, pooled, dropped, created);
        dropped := dropped + [instance];
      } else {
        StoreInstance(m, instance);
      }
    }

    /** The task goes along its route, and comes out as its last module says. All instances are back or dropped at the
        end; one more is dropped exactly if the last module raised. */
    method ModuleProcess(m: string, level: nat, answers: nat -> Result)
      returns (outcome: Outcome, ghost done: seq<Said>)
      requires Valid({}) && level <= FAST_TRACKS
      modifies this
      ensures Valid({}) && log == old(log) + done
      ensures done == if m in modules || Waits(old(instances), m) then Route(modules, m, level, answers) else []
      ensures outcome == if done == [] then ExecutorError else OutcomeOf(done[|done| - 1].result)
      ensures old(dropped) <= dropped
      ensures |dropped| == |old(dropped)| + if outcome == ExecutorError && done != [] then 1 else 0
      decreases FAST_TRACKS - level
    {
      var ok, result := RunModule(m, answers(level));
      done := if ok then [Said(m, result)] else [];
      if !ok || result.Raised? { return ExecutorError, done; }
      if result.Failed? { return TaskError, done; }
      if result.freeze { return TaskFreeze, done; }
      if result.fastTrack != "" && level < FAST_TRACKS && result.fastTrack in modules {
        ghost var rest;
        outcome, rest := ModuleProcess(result.fastTrack, level + 1, answers);
        Grown(old(log), Said(m, result), rest);
        done := [Said(m, result)] + rest;
      } else {
        outcome := TaskDone;
      }
    }

    /** One message for every task, which says what came of it. */
    method ProcessTask(m: string, answers: nat -> Result, created: bool)
      returns (message: Message, ghost done: seq<Said>)
      requires Valid({})
      modifies this
      ensures Valid({}) && log == old(log) + done && Tells(modules, done, created, message)
      ensures done == if m in modules || Waits(old(instances), m) then Route(modules, m, 0, answers) else []
    {
      var outcome;
      outcome, done := ModuleProcess(m, 0, answers);
      RouteIs(modules, m, 0, answers);
      message := if outcome.ExecutorError? || !created then ErrorMessage else OutcomeMessage(outcome);
    }
  }
}
