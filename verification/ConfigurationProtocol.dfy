/** Runs of the configuration service: authors and committers that change the master's tree side by side, and nodes
    that pull it. */
module ConfigurationProtocol {
  import opened Options
  import opened Cfgs
  import opened Lists
  import opened CfgEdits
  import opened ConfigurationDatas
  import opened ConfigurationServices
  import opened Replication

  /** What an author works on. `base` remembers the tree it was loaded from or merged with, `at` how often the master's
      tree had been written by then, and `quiet` whether every write had got its version. */
  datatype Draft = Draft(base: Cfg, tree: Cfg, at: nat, quiet: bool)

  /** A commit in a thread of its own: its version differs and it has to be merged; or it may be installed, its tree
      made while the master held `server`; or it is installed and has no version yet. */
  datatype Update =
    | Differing(draft: Draft)
    | Ready(draft: Draft, tree: Cfg, merged: bool, server: Cfg, at: nat, quiet: bool)
    | Installed(kept: bool)

  /** `local` is the master's own configuration file and `tree` what it holds; `net` has the trees that were published
      with their versions. `writes` counts the writes to the tree, `latest` is the last version generated. */
  datatype State = State(local: Cfg, tree: Cfg, writes: nat, latest: string, net: Net<Cfg, string>,
                         backups: map<string, Cfg>, drafts: map<nat, Draft>, updates: map<nat, Update>)

  datatype Step =
    | Load(author: nat)
    | Edit(author: nat, tree: Cfg)
    | MergeWithServer(author: nat)
    | Compare(id: nat, author: nat)
    | Merge(id: nat)
    | InstallTree(id: nat)
    | SetServers(id: nat, urls: seq<string>)
    | GenerateVersion(id: nat, now: string, written: bool)
    | Refreshing(step: NetStep<Cfg>)

  const VERSIONS: Versions<Cfg, string> := Versions((c: Cfg) => VersionOf(c), (a: string, b: string) => Before(a, b))

  lemma VersionsAreOrdered()
    ensures IsOrder(VERSIONS)
  {
    forall a ensures !VERSIONS.before(a, a) { BeforeIsStrict(a, a); }
    forall a, b, c | VERSIONS.before(a, b) && VERSIONS.before(b, c) ensures VERSIONS.before(a, c) {
      BeforeIsTransitive(a, b, c);
    }
  }

  /** The last tree that was published. */
  function Master(s: State): Cfg
    requires MASTER_NODE in s.net.trees
  {
    s.net.trees[MASTER_NODE]
  }

  /** Every write to the master's tree has got its version. */
  predicate Quiet(updates: map<nat, Update>) {
    forall id :: id in updates ==> !updates[id].Installed?
  }

  /** The refresh reads the master's version or data. */
  predicate ReadsMaster(net: Net<Cfg, string>, step: NetStep<Cfg>)
    requires CanStep(VERSIONS, net, step)
  {
    (step.ReadVersion? || step.ReadData?) && net.refreshes[step.id].server == MASTER_NODE
  }

  /** Nothing is asked but that the clock advances from one version to the next, that authors leave the version alone,
      and that nodes do not read the master between a write and its version. */
  predicate Enabled(s: State, step: Step) {
    match step
    case Load(author) => true
    case Edit(author, tree) => author in s.drafts && VersionOf(tree) == VersionOf(s.drafts[author].tree)
    case MergeWithServer(author) => author in s.drafts
    case Compare(id, author) => author in s.drafts && id !in s.updates && IsMaster(s.local)
    case Merge(id) => id in s.updates && s.updates[id].Differing?
    case InstallTree(id) => id in s.updates && s.updates[id].Ready?
    case SetServers(id, _) => id !in s.updates && IsMaster(s.local)
    case GenerateVersion(id, now, _) => id in s.updates && s.updates[id].Installed? && Before(s.latest, now)
    case Refreshing(step) =>
      !step.Publish? && CanStep(VERSIONS, s.net, step) && (ReadsMaster(s.net, step) ==> Quiet(s.updates))
  }

  function Drafted(s: State, author: nat, tree: Cfg): State {
    s.(drafts := s.drafts[author := Draft(s.tree, tree, s.writes, Quiet(s.updates))])
  }

  function Written(s: State, id: nat, tree: Cfg, kept: bool): State {
    s.(tree := tree, writes := s.writes + 1, updates := s.updates[id := Installed(kept)])
  }

  function Readied(s: State, id: nat, draft: Draft, tree: Cfg, merged: bool): State {
    s.(updates := s.updates[id := Ready(draft, tree, merged, s.tree, s.writes, Quiet(s.updates))])
  }

  function GivenUp(s: State, id: nat): State {
    s.(updates := s.updates - {id})
  }

  /** The master's tree gets its version, and is published once no other write waits for one. */
  function Versioned(s: State, id: nat, kept: bool, now: string): State {
    var tree, updates := SetOption(s.tree, VERSION, now), s.updates - {id};
    s.(tree := tree, writes := s.writes + 1, latest := now, updates := updates,
       backups := if kept then s.backups[now := tree] else s.backups,
       net := if Quiet(updates) then Announced(s.net, tree, now) else s.net)
  }

  function Announced(net: Net<Cfg, string>, tree: Cfg, now: string): Net<Cfg, string> {
    net.(trees := net.trees[MASTER_NODE := tree], published := net.published[now := tree])
  }

  function Next(s: State, step: Step): State
    requires Enabled(s, step)
  {
    match step
    case Load(author) => Drafted(s, author, s.tree)
    case Edit(author, tree) => s.(drafts := s.drafts[author := s.drafts[author].(tree := tree)])
    case MergeWithServer(author) =>
      Drafted(s, author, SetOption(MergeWith(s.tree, s.drafts[author].tree), VERSION, VersionOf(s.tree)))
    case Compare(id, author) =>
      var d := s.drafts[author];
      if VersionOf(d.tree) == VersionOf(s.tree) then Readied(s, id, d, d.tree, false)
      else if MergingEnabled(MergeWith(s.tree, s.local)) then s.(updates := s.updates[id := Differing(d)])
      else s
    case Merge(id) =>
      var d := s.updates[id].draft;
      if VersionOf(d.tree) !in s.backups then GivenUp(s, id)
      else
        var r := MergeIndependentUpdates(s.backups[VersionOf(d.tree)], s.tree, d.tree);
        if r.Merged? then Readied(s, id, d, r.tree, true) else GivenUp(s, id)
    case InstallTree(id) =>
      if NamesChecked(s.local, s.tree, s.updates[id].tree).Accepted? then Written(s, id, s.updates[id].tree, true)
      else GivenUp(s, id)
    case SetServers(id, urls) => Written(s, id, SetOption(s.tree, SERVERS, Join(urls)), false)
    case GenerateVersion(id, now, written) => Versioned(s, id, s.updates[id].kept && written, now)
    case Refreshing(step) => s.(net := Stepped(VERSIONS, s.net, step))
  }

  // What every step keeps.

  ghost predicate IsPublished(s: State, tree: Cfg) {
    Published(VERSIONS, s.net, tree)
  }

  /** The draft keeps the version of the tree it was made from. A quiet one is made from a published tree, and as long
      as that has the latest version nothing was written since. */
  ghost predicate DraftFits(s: State, d: Draft) {
    && VersionOf(d.tree) == VersionOf(d.base) && d.at <= s.writes
    && (d.at == s.writes ==> d.base == s.tree && (d.quiet <==> Quiet(s.updates)))
    && (d.quiet ==> IsPublished(s, d.base) && VersionOf(d.base) != "0")
    && (d.quiet && Quiet(s.updates) && VersionOf(d.base) == s.latest ==> d.at == s.writes)
  }

  ghost predicate ReadyFits(s: State, r: Update)
    requires r.Ready?
  {
    && DraftFits(s, r.draft) && r.draft.at <= r.at <= s.writes
    && (r.at == s.writes ==> r.server == s.tree && (r.quiet <==> Quiet(s.updates)))
    && (!r.merged ==> r.tree == r.draft.tree && (r.draft.quiet ==> (r.quiet <==> r.draft.at == r.at)))
    && (r.merged && r.draft.quiet ==> MergeIndependentUpdates(r.draft.base, r.server, r.draft.tree) == Merged(r.tree))
  }

  ghost predicate UpdateFits(s: State, u: Update) {
    match u
    case Differing(d) => DraftFits(s, d)
    case Ready(_, _, _, _, _, _) => ReadyFits(s, u)
    case Installed(_) => true
  }

  ghost predicate BackupFits(s: State, v: string) {
    v in s.backups ==>
      Lists.AtMost(v, s.latest) && (v in s.net.published ==> s.backups[v] == s.net.published[v])
  }

  /** What is published stays so; drafts, commits and kept trees agree with it; and once every write has got its
      version the master holds the tree that was published last. */
  ghost predicate Consistent(s: State) {
    && Coherent(VERSIONS, s.net)
    && VersionOf(Master(s)) != "0" && "0" in s.net.published
    && Lists.AtMost(VersionOf(Master(s)), s.latest)
    && (Quiet(s.updates) ==> s.tree == Master(s) && VersionOf(s.tree) == s.latest)
    && (forall a :: a in s.drafts ==> DraftFits(s, s.drafts[a]))
    && (forall id :: id in s.updates ==> UpdateFits(s, s.updates[id]))
    && (forall v :: BackupFits(s, v))
  }

  /** A master that has loaded its configuration, and nodes that have nothing yet. */
  lemma StartIsConsistent(local: Cfg, tree: Cfg, nodes: set<nat>)
    requires Before("0", VersionOf(tree))
    ensures var net := Net(map n | n in nodes + {MASTER_NODE} :: if n == MASTER_NODE then tree else EMPTY,
                           map["0" := EMPTY, VersionOf(tree) := tree], map[]);
      Consistent(State(local, tree, 0, VersionOf(tree), net, map[], map[], map[]))
      && OneEach(net) && forall id :: id in net.refreshes ==> RefreshIsCurrent(VERSIONS, net, net.refreshes[id])
  {}

  ghost predicate Extends(s: State, t: State) {
    forall v :: v in s.net.published ==> v in t.net.published && t.net.published[v] == s.net.published[v]
  }

  /** Between `s` and `t` nothing was written, or what was written still waits for its version or has got a new one. */
  ghost predicate Later(s: State, t: State) {
    && Extends(s, t) && s.writes <= t.writes
    && (t.writes == s.writes ==> t.tree == s.tree && t.latest == s.latest && (Quiet(t.updates) <==> Quiet(s.updates)))
    && (t.writes > s.writes && Quiet(t.updates) ==> Before(s.latest, t.latest))
  }

  lemma LatestIsNew(a: string, b: string, c: string)
    requires Lists.AtMost(a, b) && Before(b, c)
    ensures Before(a, c) && a != c
  {
    if a != b { BeforeIsTransitive(a, b, c); }
    BeforeIsStrict(a, c);
  }

  lemma PublishedIsOld(s: State, tree: Cfg)
    requires Consistent(s) && IsPublished(s, tree)
    ensures Lists.AtMost(VersionOf(tree), s.latest)
  {
    assert Replication.AtMost(VERSIONS, VersionOf(tree), VersionOf(Master(s)));
    if VersionOf(tree) != VersionOf(Master(s)) && VersionOf(Master(s)) != s.latest {
      BeforeIsTransitive(VersionOf(tree), VersionOf(Master(s)), s.latest);
    }
  }

  lemma DraftStillFits(s: State, t: State, d: Draft)
    requires Consistent(s) && DraftFits(s, d) && Later(s, t)
    ensures DraftFits(t, d)
  {
    if d.quiet {
      PublishedIsOld(s, d.base);
      if t.writes > s.writes && Quiet(t.updates) { LatestIsNew(VersionOf(d.base), s.latest, t.latest); }
    }
  }

  lemma UpdateStillFits(s: State, t: State, u: Update)
    requires Consistent(s) && UpdateFits(s, u) && Later(s, t)
    ensures UpdateFits(t, u)
  {
    if !u.Installed? { DraftStillFits(s, t, u.draft); }
  }

  /** What is left to show of a step, after the drafts and updates that it does not touch. */
  lemma Keeps(s: State, t: State)
    requires Consistent(s) && Later(s, t)
    requires Coherent(VERSIONS, t.net) && VersionOf(Master(t)) != "0" && Lists.AtMost(VersionOf(Master(t)), t.latest)
    requires Quiet(t.updates) ==> t.tree == Master(t) && VersionOf(t.tree) == t.latest
    requires forall a :: a in t.drafts ==> DraftFits(t, t.drafts[a]) || (a in s.drafts && t.drafts[a] == s.drafts[a])
    requires forall id :: id in t.updates ==>
      UpdateFits(t, t.updates[id]) || (id in s.updates && t.updates[id] == s.updates[id])
    requires forall v :: BackupFits(t, v)
    ensures Consistent(t)
  {
    forall a | a in t.drafts ensures DraftFits(t, t.drafts[a]) {
      if a in s.drafts && t.drafts[a] == s.drafts[a] { DraftStillFits(s, t, s.drafts[a]); }
    }
    forall id | id in t.updates ensures UpdateFits(t, t.updates[id]) {
      if id in s.updates && t.updates[id] == s.updates[id] { UpdateStillFits(s, t, s.updates[id]); }
    }
  }

  lemma SameBackups(s: State, t: State)
    requires Consistent(s) && t.backups == s.backups && t.latest == s.latest && t.net.published == s.net.published
    ensures forall v :: BackupFits(t, v)
  {
    forall v ensures BackupFits(t, v) { assert BackupFits(s, v); }
  }

  lemma StepKeepsConsistent(s: State, step: Step)
    requires Consistent(s) && Enabled(s, step)
    ensures Consistent(Next(s, step)) && Later(s, Next(s, step))
  {
    match step
    case Load(author) => DraftedKeeps(s, author, s.tree);
    case Edit(author, tree) => EditKeeps(s, author, tree);
    case MergeWithServer(author) =>
      VersionSet(MergeWith(s.tree, s.drafts[author].tree), VersionOf(s.tree));
      DraftedKeeps(s, author, SetOption(MergeWith(s.tree, s.drafts[author].tree), VERSION, VersionOf(s.tree)));
    case Compare(id, author) => CompareKeeps(s, id, author);
    case Merge(id) => MergeKeeps(s, id);
    case InstallTree(id) => InstallKeeps(s, id);
    case SetServers(id, urls) => WrittenKeeps(s, id, SetOption(s.tree, SERVERS, Join(urls)), false);
    case GenerateVersion(id, now, written) => VersionedKeeps(s, id, s.updates[id].kept && written, now);
    case Refreshing(step) => RefreshingKeeps(s, step);
  }

  lemma DraftKeeps(s: State, author: nat, d: Draft, t: State)
    requires Consistent(s) && DraftFits(s, d) && t == s.(drafts := s.drafts[author := d])
    ensures Consistent(t) && Later(s, t)
  {
    SameBackups(s, t);
    DraftStillFits(s, t, d);
    Keeps(s, t);
  }

  lemma UpdateKeeps(s: State, id: nat, u: Update, t: State)
    requires Consistent(s) && UpdateFits(s, u) && t == s.(updates := s.updates[id := u])
    requires !u.Installed? && (id in s.updates ==> !s.updates[id].Installed?)
    ensures Consistent(t) && Later(s, t)
  {
    SameBackups(s, t);
    SameQuiet(s.updates, t.updates, id);
    UpdateStillFits(s, t, u);
    Keeps(s, t);
  }

  lemma DraftedKeeps(s: State, author: nat, tree: Cfg)
    requires Consistent(s) && VersionOf(tree) == VersionOf(s.tree)
    ensures Consistent(Drafted(s, author, tree)) && Later(s, Drafted(s, author, tree))
  {
    DraftKeeps(s, author, Draft(s.tree, tree, s.writes, Quiet(s.updates)), Drafted(s, author, tree));
  }

  lemma EditKeeps(s: State, author: nat, tree: Cfg)
    requires Consistent(s) && Enabled(s, Edit(author, tree))
    ensures Consistent(Next(s, Edit(author, tree))) && Later(s, Next(s, Edit(author, tree)))
  {
    var d := s.drafts[author];
    assert DraftFits(s, d);
    DraftKeeps(s, author, d.(tree := tree), Next(s, Edit(author, tree)));
  }

  lemma SameQuiet(before: map<nat, Update>, after: map<nat, Update>, id: nat)
    requires before - {id} == after - {id}
    requires (id in before ==> !before[id].Installed?) && (id in after ==> !after[id].Installed?)
    ensures Quiet(after) <==> Quiet(before)
  {
    assert forall i :: i in before && i != id ==> i in before - {id} && (before - {id})[i] == before[i];
    assert forall i :: i in after && i != id ==> i in after - {id} && (after - {id})[i] == after[i];
  }

  lemma GivenUpKeeps(s: State, id: nat)
    requires Consistent(s) && id in s.updates && !s.updates[id].Installed?
    ensures Consistent(GivenUp(s, id)) && Later(s, GivenUp(s, id))
  {
    var t := GivenUp(s, id);
    SameBackups(s, t);
    SameQuiet(s.updates, t.updates, id);
    Keeps(s, t);
  }

  lemma CompareKeeps(s: State, id: nat, author: nat)
    requires Consistent(s) && Enabled(s, Compare(id, author))
    ensures Consistent(Next(s, Compare(id, author))) && Later(s, Next(s, Compare(id, author)))
  {
    var d := s.drafts[author];
    assert DraftFits(s, d);
    if VersionOf(d.tree) == VersionOf(s.tree) {
      ComparedFits(s, d);
      UpdateKeeps(s, id, Ready(d, d.tree, false, s.tree, s.writes, Quiet(s.updates)), Next(s, Compare(id, author)));
    } else if MergingEnabled(MergeWith(s.tree, s.local)) {
      UpdateKeeps(s, id, Differing(d), Next(s, Compare(id, author)));
    }
  }

  /** Equal versions mean that nothing was written since the draft was made, if every write has got its version. */
  lemma ComparedFits(s: State, d: Draft)
    requires Consistent(s) && DraftFits(s, d) && VersionOf(d.tree) == VersionOf(s.tree)
    ensures ReadyFits(s, Ready(d, d.tree, false, s.tree, s.writes, Quiet(s.updates)))
  {}

  lemma MergeKeeps(s: State, id: nat)
    requires Consistent(s) && Enabled(s, Merge(id))
    ensures Consistent(Next(s, Merge(id))) && Later(s, Next(s, Merge(id)))
  {
    var d := s.updates[id].draft;
    var v := VersionOf(d.tree);
    assert UpdateFits(s, s.updates[id]) && BackupFits(s, v);
    if v in s.backups && MergeIndependentUpdates(s.backups[v], s.tree, d.tree).Merged? {
      var both := MergeIndependentUpdates(s.backups[v], s.tree, d.tree).tree;
      UpdateKeeps(s, id, Ready(d, both, true, s.tree, s.writes, Quiet(s.updates)), Next(s, Merge(id)));
    } else {
      GivenUpKeeps(s, id);
    }
  }

  lemma WrittenKeeps(s: State, id: nat, tree: Cfg, kept: bool)
    requires Consistent(s)
    ensures Consistent(Written(s, id, tree, kept)) && Later(s, Written(s, id, tree, kept))
  {
    var t := Written(s, id, tree, kept);
    SameBackups(s, t);
    assert t.updates[id].Installed?;
    Keeps(s, t);
  }

  lemma InstallKeeps(s: State, id: nat)
    requires Consistent(s) && Enabled(s, InstallTree(id))
    ensures Consistent(Next(s, InstallTree(id))) && Later(s, Next(s, InstallTree(id)))
  {
    if NamesChecked(s.local, s.tree, s.updates[id].tree).Accepted? {
      WrittenKeeps(s, id, s.updates[id].tree, true);
    } else {
      GivenUpKeeps(s, id);
    }
  }

  lemma AnnouncedPublishes(s: State, tree: Cfg, now: string)
    requires Consistent(s) && Before(s.latest, now)
    ensures var named := SetOption(tree, VERSION, now);
      && VersionOf(named) == now && CanStep(VERSIONS, s.net, Publish(named))
      && Announced(s.net, named, now) == Stepped(VERSIONS, s.net, Publish(named))
      && Coherent(VERSIONS, Announced(s.net, named, now)) && now !in s.net.published
  {
    var named := SetOption(tree, VERSION, now);
    VersionsAreOrdered();
    VersionSet(tree, now);
    assert VERSIONS.before(VersionOf(Master(s)), s.latest) || VersionOf(Master(s)) == s.latest;
    assert VERSIONS.before(s.latest, now);
    PublishKeeps(VERSIONS, s.net, named);
  }

  lemma VersionedBackups(s: State, id: nat, kept: bool, now: string, v: string)
    requires Consistent(s) && Before(s.latest, now)
    ensures BackupFits(Versioned(s, id, kept, now), v)
  {
    assert BackupFits(s, v);
    AnnouncedPublishes(s, s.tree, now);
    if v in s.backups { LatestIsNew(v, s.latest, now); }
  }

  lemma VersionedKeeps(s: State, id: nat, kept: bool, now: string)
    requires Consistent(s) && id in s.updates && s.updates[id].Installed? && Before(s.latest, now)
    ensures Consistent(Versioned(s, id, kept, now)) && Later(s, Versioned(s, id, kept, now))
  {
    var t := Versioned(s, id, kept, now);
    forall v ensures BackupFits(t, v) { VersionedBackups(s, id, kept, now, v); }
    AnnouncedPublishes(s, s.tree, now);
    NotZero(s, now);
    LatestIsNew(VersionOf(Master(s)), s.latest, now);
    Keeps(s, t);
  }

  lemma NotZero(s: State, now: string)
    requires Consistent(s) && Before(s.latest, now)
    ensures now != "0"
  {
    VersionsAreOrdered();
    assert VERSIONS.of(s.net.published["0"]) == "0";
    PublishedIsOld(s, s.net.published["0"]);
    assert VERSIONS.before(s.latest, now);
  }

  lemma RefreshingKeeps(s: State, step: NetStep<Cfg>)
    requires Consistent(s) && Enabled(s, Refreshing(step))
    ensures Consistent(Next(s, Refreshing(step))) && Later(s, Next(s, Refreshing(step)))
  {
    var t := Next(s, Refreshing(step));
    VersionsAreOrdered();
    StepKeepsCoherent(VERSIONS, s.net, step);
    RefreshLeavesMaster(VERSIONS, s.net, step);
    SameBackups(s, t);
    Keeps(s, t);
  }

  // Runs.

  ghost predicate StepAt(states: seq<State>, steps: seq<Step>, i: nat)
    requires i < |steps| && |states| == |steps| + 1
  {
    Enabled(states[i], steps[i]) && states[i + 1] == Next(states[i], steps[i])
  }

  ghost predicate Run(states: seq<State>, steps: seq<Step>) {
    |states| == |steps| + 1 && forall i :: 0 <= i < |steps| ==> StepAt(states, steps, i)
  }

  lemma {:induction false} RunStaysConsistent(states: seq<State>, steps: seq<Step>, i: nat)
    requires Run(states, steps) && Consistent(states[0]) && i < |states|
    ensures Consistent(states[i])
  {
    if i > 0 {
      RunStaysConsistent(states, steps, i - 1);
      StepAtKeeps(states, steps, i);
    }
  }

  lemma StepAtKeeps(states: seq<State>, steps: seq<Step>, i: nat)
    requires Run(states, steps) && 0 < i < |states| && Consistent(states[i - 1])
    ensures Consistent(states[i])
  {
    assert StepAt(states, steps, i - 1);
    StepKeepsConsistent(states[i - 1], steps[i - 1]);
  }

  /** Throughout a run, whatever commits race, nodes with equal versions hold equal trees, no node is ahead of what was
      last published, and the data is at hand in every refresh that will install it. */
  lemma NodesAgree(states: seq<State>, steps: seq<Step>, i: nat, n: nat, m: nat)
    requires Run(states, steps) && Consistent(states[0]) && i < |states|
    requires n in states[i].net.trees && m in states[i].net.trees
    ensures var net := states[i].net;
      && (VersionOf(net.trees[n]) == VersionOf(net.trees[m]) ==> net.trees[n] == net.trees[m])
      && MASTER_NODE in net.trees && Lists.AtMost(VersionOf(net.trees[n]), VersionOf(net.trees[MASTER_NODE]))
    ensures Quiet(states[i].updates) ==> states[i].tree == Master(states[i])
    ensures forall id :: id in states[i].net.refreshes ==>
      var r := states[i].net.refreshes[id]; r.Answered? && Before(r.local, r.newest) ==> r.data.Some?
  {
    RunStaysConsistent(states, steps, i);
    var net := states[i].net;
    assert Published(VERSIONS, net, net.trees[n]) && Published(VERSIONS, net, net.trees[m]);
    forall id | id in net.refreshes && net.refreshes[id].Answered?
      && Before(net.refreshes[id].local, net.refreshes[id].newest)
      ensures net.refreshes[id].data.Some?
    {
      assert RefreshFits(VERSIONS, net, net.refreshes[id]);
    }
  }

  /** What a step does to the nodes and to what is published. */
  function MoveOf(s: State, step: Step): Option<NetStep<Cfg>>
    requires Enabled(s, step)
  {
    match step
    case GenerateVersion(id, now, _) =>
      if Quiet(s.updates - {id}) then Some(Publish(SetOption(s.tree, VERSION, now))) else None
    case Refreshing(step) => Some(step)
    case _ => None
  }

  function Nets(states: seq<State>): seq<Net<Cfg, string>> {
    seq(|states|, i requires 0 <= i < |states| => states[i].net)
  }

  ghost function MovesOf(states: seq<State>, steps: seq<Step>): seq<Option<NetStep<Cfg>>>
    requires Run(states, steps)
  {
    seq(|steps|, i requires 0 <= i < |steps| => assert StepAt(states, steps, i); MoveOf(states[i], steps[i]))
  }

  /** No refresh is under way that knows less of its node than the node itself. */
  ghost predicate Fresh(s: State) {
    forall id :: id in s.net.refreshes ==> RefreshIsCurrent(VERSIONS, s.net, s.net.refreshes[id])
  }

  lemma RunMoves(states: seq<State>, steps: seq<Step>)
    requires Run(states, steps) && Consistent(states[0]) && Fresh(states[0])
    ensures Moves(VERSIONS, Nets(states), MovesOf(states, steps))
  {
    var nets, moves := Nets(states), MovesOf(states, steps);
    forall i: nat | i < |moves| ensures MoveAt(VERSIONS, nets, moves, i) {
      RunStaysConsistent(states, steps, i);
      StepMovesAt(states, steps, i);
    }
    forall net | net in nets ensures Coherent(VERSIONS, net) {
      var i :| 0 <= i < |nets| && net == nets[i];
      RunStaysConsistent(states, steps, i);
    }
  }

  lemma StepMovesAt(states: seq<State>, steps: seq<Step>, i: nat)
    requires Run(states, steps) && i < |steps| && Consistent(states[i])
    ensures MoveAt(VERSIONS, Nets(states), MovesOf(states, steps), i)
  {
    assert StepAt(states, steps, i);
    StepMoves(states[i], steps[i]);
  }

  lemma StepMoves(s: State, step: Step)
    requires Consistent(s) && Enabled(s, step)
    ensures match MoveOf(s, step)
      case None => Next(s, step).net == s.net
      case Some(move) => CanStep(VERSIONS, s.net, move) && Next(s, step).net == Stepped(VERSIONS, s.net, move)
  {
    if step.GenerateVersion? {
      AnnouncedPublishes(s, s.tree, step.now);
    } else if !step.Refreshing? {
      NetStays(s, step);
    }
  }

  lemma NetStays(s: State, step: Step)
    requires Enabled(s, step) && !step.GenerateVersion? && !step.Refreshing?
    ensures Next(s, step).net == s.net
  {}

  /** In a run in which no install was overtaken by another refresh of its node, every node's version only rises,
      although a server reads its version and its data in two steps. */
  lemma VersionsOnlyRise(states: seq<State>, steps: seq<Step>, i: nat, j: nat)
    requires Run(states, steps) && Consistent(states[0]) && Fresh(states[0]) && i <= j < |states|
    requires forall m: nat :: m < j ==> Undisturbed(Nets(states), MovesOf(states, steps), m)
    ensures Rises(VERSIONS, states[i].net, states[j].net)
  {
    RunMoves(states, steps);
    VersionsAreOrdered();
    RisesUndisturbed(VERSIONS, Nets(states), MovesOf(states, steps), j);
    RisesAlong(VERSIONS, Nets(states), i, j);
  }

  /** No node starts a refresh while another one of its refreshes is under way. */
  predicate SerialRun(states: seq<State>, steps: seq<Step>) {
    |states| == |steps| + 1 && forall i :: 0 <= i < |steps| ==> SerialStep(states[i], steps[i])
  }

  predicate SerialStep(s: State, step: Step) {
    step.Refreshing? ==> Serial(s.net, step.step)
  }

  lemma SerialRunsRise(states: seq<State>, steps: seq<Step>, i: nat, j: nat)
    requires Run(states, steps) && Consistent(states[0]) && Fresh(states[0]) && i <= j < |states|
    requires SerialRun(states, steps) && OneEach(states[0].net)
    ensures Rises(VERSIONS, states[i].net, states[j].net)
  {
    var nets, moves := Nets(states), MovesOf(states, steps);
    RunMoves(states, steps);
    forall k: nat | k < |moves| ensures SerialMove(nets, moves, k) {
      assert StepAt(states, steps, k) && SerialStep(states[k], steps[k]);
    }
    forall m: nat | m < j ensures Undisturbed(nets, moves, m) { SerialIsUndisturbed(VERSIONS, nets, moves, m); }
    VersionsOnlyRise(states, steps, i, j);
  }

  // Which updates are lost.

  /** The step writes to the master's tree. */
  predicate Writes(s: State, step: Step)
    requires Enabled(s, step)
  {
    match step
    case InstallTree(id) => NamesChecked(s.local, s.tree, s.updates[id].tree).Accepted?
    case SetServers(_, _) => true
    case GenerateVersion(_, _, _) => true
    case _ => false
  }

  ghost predicate NoWrite(states: seq<State>, steps: seq<Step>, i: nat)
    requires i < |steps| && |states| == |steps| + 1 && StepAt(states, steps, i)
  {
    !Writes(states[i], steps[i])
  }

  lemma StepCountsWrites(s: State, step: Step)
    requires Enabled(s, step)
    ensures Next(s, step).writes == s.writes + if Writes(s, step) then 1 else 0
  {}

  lemma {:induction false} WritesAreCounted(states: seq<State>, steps: seq<Step>, i: nat, j: nat)
    requires Run(states, steps) && i <= j < |states|
    ensures states[i].writes <= states[j].writes
    ensures states[i].writes == states[j].writes <==> forall k: nat :: i <= k < j ==> NoWrite(states, steps, k)
    decreases j
  {
    if i < j {
      WritesAreCounted(states, steps, i, j - 1);
      assert StepAt(states, steps, j - 1);
      StepCountsWrites(states[j - 1], steps[j - 1]);
      assert NoWrite(states, steps, j - 1) <==> states[j].writes == states[j - 1].writes;
    }
  }

  /** A commit that passed the comparison of versions without merging, made from a published tree, replaces that very
      tree, nothing having been written since its author loaded it, if and only if every write had got its version when
      it was compared, and no write fell between its comparison and its own installation. */
  lemma CommitReplacesItsBase(states: seq<State>, steps: seq<Step>, check: nat, install: nat, id: nat)
    requires Run(states, steps) && Consistent(states[0]) && check < install < |steps|
    requires steps[check].Compare? && steps[check].id == id && steps[install] == InstallTree(id)
    requires id in states[check + 1].updates && states[check + 1].updates[id].Ready?
    requires id in states[install].updates && states[install].updates[id] == states[check + 1].updates[id]
    requires states[install].updates[id].draft.quiet
    ensures var s, d := states[install], states[install].updates[id].draft;
      && (s.writes == d.at <==>
            && Quiet(states[check].updates)
            && forall k: nat :: check <= k < install ==> NoWrite(states, steps, k))
      && (s.writes == d.at ==> s.tree == d.base)
    ensures states[install].updates[id].tree == states[install].updates[id].draft.tree
  {
    RunStaysConsistent(states, steps, install);
    ComparedIs(states, steps, check, id);
    ReplacesWhatIsWritten(states[install], id);
    WritesAreCounted(states, steps, check, install);
  }

  lemma ComparedIs(states: seq<State>, steps: seq<Step>, check: nat, id: nat)
    requires Run(states, steps) && check < |steps| && steps[check].Compare? && steps[check].id == id
    requires id in states[check + 1].updates && states[check + 1].updates[id].Ready?
    ensures var s, r := states[check], states[check + 1].updates[id];
      r == Ready(r.draft, r.draft.tree, false, s.tree, s.writes, Quiet(s.updates))
  {
    assert StepAt(states, steps, check);
  }

  lemma ReplacesWhatIsWritten(s: State, id: nat)
    requires Consistent(s) && id in s.updates && s.updates[id].Ready?
    requires !s.updates[id].merged && s.updates[id].draft.quiet
    ensures var r := s.updates[id]; var d := r.draft;
      r.tree == d.tree && (s.writes == d.at <==> r.quiet && s.writes == r.at) && (s.writes == d.at ==> s.tree == d.base)
  {
    assert UpdateFits(s, s.updates[id]);
  }

  /** With merging too, a commit that installs its tree before anything else is written keeps whatever the server
      changed since its author's tree, and changes just what the author changed. */
  lemma CommitKeepsServerEdits(s: State, id: nat, p: seq<string>)
    requires Consistent(s) && id in s.updates && s.updates[id].Ready? && p != VERSION
    requires var r := s.updates[id]; r.draft.quiet && s.writes == r.at && (r.merged || r.quiet)
    ensures var base, tree, after := s.updates[id].draft.base, s.updates[id].draft.tree, s.updates[id].tree;
      && (Lookup(s.tree, p) != Lookup(base, p) ==> Lookup(after, p) == Lookup(s.tree, p))
      && (Lookup(tree, p) != Lookup(base, p) ==> Lookup(after, p) == Lookup(tree, p))
      && (Lookup(s.tree, p) == Lookup(base, p) == Lookup(tree, p) ==> Lookup(after, p) == Lookup(base, p))
  {
    var r := s.updates[id];
    assert UpdateFits(s, r);
    if r.merged { MergeIsThreeWay(r.draft.base, r.server, r.draft.tree, p); }
  }

  ghost predicate Reaches(s: State, steps: seq<Step>, t: State)
    decreases |steps|
  {
    if steps == [] then s == t else Enabled(s, steps[0]) && Reaches(Next(s, steps[0]), steps[1..], t)
  }

  lemma ReachesFrom(s: State, steps: seq<Step>, k: nat, next: State, t: State)
    requires k < |steps| && Enabled(s, steps[k]) && next == Next(s, steps[k]) && Reaches(next, steps[k + 1..], t)
    ensures Reaches(s, steps[k..], t)
  {
    assert steps[k..][1..] == steps[k + 1..];
  }

  lemma TwoSteps(s: State, one: Step, t: State, two: Step, u: State)
    requires Enabled(s, one) && t == Next(s, one) && Enabled(t, two) && u == Next(t, two)
    ensures Reaches(s, [one, two], u)
  {
    var all := [one, two];
    ReachesFrom(t, all, 1, u, u);
    ReachesFrom(s, all, 0, t, u);
  }

  lemma {:induction false} ReachesOn(s: State, one: seq<Step>, t: State, two: seq<Step>, u: State)
    requires Reaches(s, one, t) && Reaches(t, two, u)
    ensures Reaches(s, one + two, u)
    decreases |one|
  {
    if one == [] {
      assert one + two == two;
    } else {
      ReachesOn(Next(s, one[0]), one[1..], t, two, u);
      assert (one + two)[1..] == one[1..] + two;
    }
  }

  lemma AddedAndRemoved(updates: map<nat, Update>, id: nat, u: Update)
    requires id !in updates
    ensures updates[id := u] - {id} == updates
  {}

  function AfterInstall(s: State, id: nat, tree: Cfg): State {
    if NamesChecked(s.local, s.tree, tree).Accepted? then Written(s, id, tree, true) else s
  }

  lemma InstallAlone(s: State, id: nat, one: State, r: Update)
    requires id !in s.updates && r.Ready? && one == s.(updates := s.updates[id := r])
    ensures Enabled(one, InstallTree(id)) && Next(one, InstallTree(id)) == AfterInstall(s, id, r.tree)
  {
    AddedAndRemoved(s.updates, id, r);
    assert s.updates[id := r][id := Installed(true)] == s.updates[id := Installed(true)];
  }

  lemma EqualAlone(s: State, author: nat, id: nat) returns (steps: seq<Step>, t: State)
    requires Enabled(s, Compare(id, author)) && VersionOf(s.drafts[author].tree) == VersionOf(s.tree)
    ensures Reaches(s, steps, t) && t == AfterInstall(s, id, s.drafts[author].tree)
  {
    var one := Next(s, Compare(id, author));
    InstallAlone(s, id, one, one.updates[id]);
    t := Next(one, InstallTree(id));
    steps := [Compare(id, author), InstallTree(id)];
    TwoSteps(s, Compare(id, author), one, InstallTree(id), t);
  }

  function MergedWith(s: State, tree: Cfg): MergeResult {
    if VersionOf(tree) in s.backups then MergeIndependentUpdates(s.backups[VersionOf(tree)], s.tree, tree) else Conflict
  }

  lemma MergeAlone(s: State, d: Draft, id: nat, one: State) returns (steps: seq<Step>, t: State)
    requires id !in s.updates && one == s.(updates := s.updates[id := Differing(d)])
    ensures Reaches(one, steps, t)
    ensures t == if MergedWith(s, d.tree).Merged? then AfterInstall(s, id, MergedWith(s, d.tree).tree) else s
  {
    var r := MergedWith(s, d.tree);
    var two := MergeNext(s, d, id, one, r);
    if r.Merged? {
      InstallAlone(s, id, two, two.updates[id]);
      t := Next(two, InstallTree(id));
      steps := [Merge(id), InstallTree(id)];
      TwoSteps(one, Merge(id), two, InstallTree(id), t);
    } else {
      t := two;
      steps := [Merge(id)];
      ReachesFrom(one, steps, 0, two, two);
    }
  }

  lemma MergeNext(s: State, d: Draft, id: nat, one: State, r: MergeResult) returns (two: State)
    requires id !in s.updates && one == s.(updates := s.updates[id := Differing(d)]) && r == MergedWith(s, d.tree)
    ensures Enabled(one, Merge(id)) && two == Next(one, Merge(id))
    ensures if r.Merged? then id in two.updates && two.updates[id].Ready? && two.updates[id].tree == r.tree
                              && two == s.(updates := s.updates[id := two.updates[id]])
            else two == s
  {
    two := Next(one, Merge(id));
    AddedAndRemoved(s.updates, id, Differing(d));
    if r.Merged? { assert one.updates[id := two.updates[id]] == s.updates[id := two.updates[id]]; }
  }

  /** What the server's update as a whole makes of a tree, case by case. */
  lemma OutcomeIs(s: State, tree: Cfg)
    requires IsMaster(s.local)
    ensures var outcome := CommitOutcome(s.local, s.tree, s.backups, tree, false);
      && (VersionOf(tree) == VersionOf(s.tree) ==> outcome == NamesChecked(s.local, s.tree, tree))
      && (VersionOf(tree) != VersionOf(s.tree) && !MergingEnabled(MergeWith(s.tree, s.local)) ==> outcome.Refused?)
      && (VersionOf(tree) != VersionOf(s.tree) && MergingEnabled(MergeWith(s.tree, s.local)) ==>
            if MergedWith(s, tree).Merged? then outcome == NamesChecked(s.local, s.tree, MergedWith(s, tree).tree)
            else outcome.Refused?)
  {}

  function AfterOutcome(s: State, id: nat, outcome: CommitResult): State {
    if outcome.Accepted? then Written(s, id, outcome.tree, true) else s
  }

  /** Comparison, merge and installation on their own accept what the server's update accepts as a whole. */
  lemma UpdateAlone(s: State, author: nat, id: nat) returns (steps: seq<Step>, t: State)
    requires Enabled(s, Compare(id, author))
    ensures Reaches(s, steps, t)
    ensures t == AfterOutcome(s, id, CommitOutcome(s.local, s.tree, s.backups, s.drafts[author].tree, false))
  {
    var d, one := s.drafts[author], Next(s, Compare(id, author));
    OutcomeIs(s, d.tree);
    if VersionOf(d.tree) == VersionOf(s.tree) {
      steps, t := EqualAlone(s, author, id);
    } else {
      steps, t := [Compare(id, author)], one;
      ReachesFrom(s, [Compare(id, author)], 0, one, one);
      if MergingEnabled(MergeWith(s.tree, s.local)) {
        var more: seq<Step>;
        more, t := MergeAlone(s, d, id, one);
        ReachesOn(s, [Compare(id, author)], one, more, t);
        steps := [Compare(id, author)] + more;
      }
    }
  }

  lemma InstalledWithVersion(s: State, id: nat, now: string) returns (steps: seq<Step>, t: State)
    requires id in s.updates && s.updates[id].Ready? && Before(s.latest, now)
    requires NamesChecked(s.local, s.tree, s.updates[id].tree).Accepted?
    ensures steps == [InstallTree(id), GenerateVersion(id, now, true)] && Reaches(s, steps, t)
    ensures t.tree == SetOption(s.updates[id].tree, VERSION, now) && t.latest == now && t.local == s.local
    ensures t.updates == s.updates - {id}
  {
    var one := Next(s, InstallTree(id));
    t := Next(one, GenerateVersion(id, now, true));
    steps := [InstallTree(id), GenerateVersion(id, now, true)];
    TwoSteps(s, InstallTree(id), one, GenerateVersion(id, now, true), t);
  }

  /** An author who loads the tree, changes it and commits it, with nobody else about, has it in force under the new
      version. */
  lemma AuthorsCommit(s: State, author: nat, id: nat, tree: Cfg, now: string) returns (steps: seq<Step>, t: State)
    requires IsMaster(s.local) && id !in s.updates && VersionOf(tree) == VersionOf(s.tree)
    requires Lookup(tree, NAME) == Lookup(MergeWith(s.tree, s.local), NAME) && Before(s.latest, now)
    ensures steps
      == [Load(author), Edit(author, tree)] + [Compare(id, author)] + [InstallTree(id), GenerateVersion(id, now, true)]
    ensures Reaches(s, steps, t) && t.tree == SetOption(tree, VERSION, now) && t.updates == s.updates
  {
    var one := Next(s, Load(author));
    var two := Next(one, Edit(author, tree));
    TwoSteps(s, Load(author), one, Edit(author, tree), two);
    var three := Next(two, Compare(id, author));
    ReachesFrom(two, [Compare(id, author)], 0, three, three);
    var more;
    more, t := InstalledWithVersion(three, id, now);
    AddedAndRemoved(s.updates, id, three.updates[id]);
    ReachesOn(s, [Load(author), Edit(author, tree)], two, [Compare(id, author)], three);
    ReachesOn(s, [Load(author), Edit(author, tree)] + [Compare(id, author)], three, more, t);
    steps := [Load(author), Edit(author, tree)] + [Compare(id, author)] + more;
  }

  /** Publishing slaves on its own is what the server does as a whole. */
  lemma SlavesArePublished(s: State, id: nat, urls: seq<string>, now: string) returns (t: State)
    requires IsMaster(s.local) && id !in s.updates && Before(s.latest, now)
    ensures Reaches(s, [SetServers(id, urls), GenerateVersion(id, now, true)], t)
    ensures t.tree == Republished(s.tree, urls, now) && t.updates == s.updates && t.backups == s.backups
  {
    var one := Next(s, SetServers(id, urls));
    t := Next(one, GenerateVersion(id, now, true));
    TwoSteps(s, SetServers(id, urls), one, GenerateVersion(id, now, true), t);
    AddedAndRemoved(s.updates, id, one.updates[id]);
  }

  /** Two commits from the tree in force that are both compared before either is installed are both accepted, and of
      the first nothing is left but what the second has too. */
  lemma RacingCommits(s: State, one: nat, two: nat, first: nat, second: nat, now: string, later: string)
      returns (steps: seq<Step>, t: State)
    requires Enabled(s, Compare(one, first)) && Enabled(s, Compare(two, second)) && one != two
    requires VersionOf(s.drafts[first].tree) == VersionOf(s.tree) == VersionOf(s.drafts[second].tree)
    requires NamesChecked(s.local, s.tree, s.drafts[first].tree).Accepted?
    requires NamesChecked(s.local, SetOption(s.drafts[first].tree, VERSION, now), s.drafts[second].tree).Accepted?
    requires Before(s.latest, now) && Before(now, later)
    ensures Reaches(s, steps, t) && t.updates == s.updates
    ensures steps == [Compare(one, first), Compare(two, second)] + [InstallTree(one), GenerateVersion(one, now, true)]
                   + [InstallTree(two), GenerateVersion(two, later, true)]
    ensures t.tree == SetOption(s.drafts[second].tree, VERSION, later)
    ensures forall p :: p != VERSION ==> Lookup(t.tree, p) == Lookup(s.drafts[second].tree, p)
  {
    var s2 := BothCompared(s, one, two, first, second);
    var winning, s4 := InstalledWithVersion(s2, one, now);
    var losing;
    losing, t := InstalledWithVersion(s4, two, later);
    ReachesOn(s, [Compare(one, first), Compare(two, second)], s2, winning, s4);
    ReachesOn(s, [Compare(one, first), Compare(two, second)] + winning, s4, losing, t);
    steps := [Compare(one, first), Compare(two, second)] + winning + losing;
    VersionSet(s.drafts[second].tree, later);
  }

  lemma BothCompared(s: State, one: nat, two: nat, first: nat, second: nat) returns (t: State)
    requires Enabled(s, Compare(one, first)) && Enabled(s, Compare(two, second)) && one != two
    requires VersionOf(s.drafts[first].tree) == VersionOf(s.tree) == VersionOf(s.drafts[second].tree)
    ensures Reaches(s, [Compare(one, first), Compare(two, second)], t)
    ensures t.local == s.local && t.tree == s.tree && t.latest == s.latest && t.updates - {one} - {two} == s.updates
    ensures one in t.updates && t.updates[one].Ready? && t.updates[one].tree == s.drafts[first].tree
    ensures two in t.updates && t.updates[two].Ready? && t.updates[two].tree == s.drafts[second].tree
  {
    var next := Next(s, Compare(one, first));
    t := Next(next, Compare(two, second));
    TwoSteps(s, Compare(one, first), next, Compare(two, second), t);
    AddedAndRemoved(s.updates, one, t.updates[one]);
    assert t.updates - {one} - {two} == s.updates;
  }

  /** A tree with a version other than "0" has that version as its option. */
  lemma VersionIsOption(c: Cfg)
    requires VersionOf(c) != "0"
    ensures Lookup(c, VERSION) == Some(VersionOf(c))
  {}

  /** Until its version is generated, an accepted tree stands under the version it replaces. A node that read it then
      would hold a published tree exactly when the commit changed nothing. */
  lemma UnversionedCommit(s: State, author: nat, tree: Cfg)
    requires Consistent(s) && Quiet(s.updates) && author in s.drafts && s.drafts[author].quiet
    requires CommitOutcome(s.local, s.tree, s.backups, s.drafts[author].tree, false) == Accepted(tree)
    ensures VersionOf(tree) == VersionOf(s.tree)
    ensures IsPublished(s, tree) <==> tree == s.tree
  {
    var d := s.drafts[author];
    assert DraftFits(s, d) && BackupFits(s, VersionOf(d.tree));
    assert IsPublished(s, s.tree);
    if VersionOf(d.tree) != VersionOf(s.tree) {
      assert s.backups[VersionOf(d.tree)] == d.base;
      VersionIsOption(d.base);
      VersionIsOption(d.tree);
      VersionIsOption(s.tree);
      MergeIsThreeWay(d.base, s.tree, d.tree, VERSION);
    }
  }

  /** A stale commit that changed anything next to the version option is never merged. */
  lemma StaleConfigurationEdit(base: Cfg, server: Cfg, client: Cfg)
    requires Section(base, CONFIGURATION).Some? && Section(server, CONFIGURATION).Some?
      && Section(client, CONFIGURATION).Some?
    requires Lookup(server, VERSION) != Lookup(base, VERSION)
    requires Section(client, CONFIGURATION) != Section(base, CONFIGURATION)
    ensures MergeIndependentUpdates(base, server, client).Conflict?
  {
    var top, inner := CONFIGURATION[0], CONFIGURATION[1];
    assert CONFIGURATION == [top, inner] && VERSION == [top, inner, "Version"];
    DeepEntries(base, top, inner);
    DeepEntries(server, top, inner);
    DeepEntries(client, top, inner);
    assert ConflictAt(base, server, client, CONFIGURATION);
    MergeOutcome(base, server, client);
  }

  lemma DeepEntries(c: Cfg, top: string, inner: string)
    ensures Section(c, [top, inner]) ==
      if top in c.sections && inner in c.sections[top].sections then Some(c.sections[top].sections[inner]) else None
    ensures top in c.sections && inner in c.sections[top].sections ==>
      Lookup(c, [top, inner, "Version"]) == Lookup(c.sections[top].sections[inner], ["Version"])
  {
    assert [top, inner][1..] == [inner] && [inner][1..] == [];
    assert [top, inner, "Version"][1..] == [inner, "Version"] && [inner, "Version"][1..] == ["Version"];
    if top in c.sections {
      var sub := c.sections[top];
      assert Section(c, [top, inner]) == Section(sub, [inner]);
      if inner in sub.sections {
        assert Section(sub, [inner]) == Section(sub.sections[inner], []);
        assert Lookup(sub, [inner, "Version"]) == Lookup(sub.sections[inner], ["Version"]);
      }
      assert Lookup(c, [top, inner, "Version"]) == Lookup(c.sections[top], [inner, "Version"]);
    }
  }
}
