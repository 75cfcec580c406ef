/** The master's side of the configuration service, and one refresh from it. */
module ConfigurationServices {
  import opened Options
  import opened Cfgs
  import opened Lists
  import opened CfgEdits
  import opened ConfigurationDatas

  const IS_MASTER := CONFIGURATION + ["Master"]
  const AUTO_MERGE := CONFIGURATION + ["EnableAutoMerge"]

  function Lower(s: string): string {
    seq(|s|, i requires 0 <= i < |s| => if 'A' <= s[i] <= 'Z' then s[i] - 'A' + 'a' else s[i])
  }

  predicate Affirmative(s: string) {
    Lower(s) == "yes" || Lower(s) == "true" || Lower(s) == "y"
  }

  predicate IsMaster(local: Cfg) {
    Affirmative(Text(local, IS_MASTER))
  }

  predicate MergingEnabled(merged: Cfg) {
    Affirmative(Text(merged, AUTO_MERGE))
  }

  // Commits.

  datatype CommitError =
    | NotMaster | VersionsDiffer | NoOriginal | MergeConflict | MergeFailed | NamesDiffer | NoSuchVersion

  datatype CommitResult = Accepted(tree: Cfg) | Refused(error: CommitError)

  function NamesChecked(local: Cfg, current: Cfg, tree: Cfg): CommitResult {
    if Lookup(tree, NAME) == Lookup(MergeWith(current, local), NAME) then Accepted(tree) else Refused(NamesDiffer)
  }

  /** The tree to commit: the one handed in when it is made from the current version, else the merge of both. */
  function Reconciled(merging: bool, current: Cfg, backups: map<string, Cfg>, tree: Cfg): CommitResult {
    if VersionOf(tree) == VersionOf(current) then Accepted(tree)
    else if !merging then Refused(VersionsDiffer)
    else if VersionOf(tree) !in backups then Refused(NoOriginal)
    else
      match MergeIndependentUpdates(backups[VersionOf(tree)], current, tree)
      case Conflict => Refused(MergeConflict)
      case Failed => Refused(MergeFailed)
      case Merged(both) => Accepted(both)
  }

  /** Overwriting hands in the tree under the current version. */
  function Handed(submitted: Cfg, overwrite: bool, current: Cfg): Cfg {
    if overwrite then SetOption(submitted, VERSION, VersionOf(current)) else submitted
  }

  /** What becomes of a tree handed in while the master holds `current`; the version it is accepted with is the
      old one until a new one is generated. */
  function CommitOutcome(local: Cfg, current: Cfg, backups: map<string, Cfg>, submitted: Cfg,
                         overwrite: bool): CommitResult {
    if !IsMaster(local) then Refused(NotMaster)
    else
      var reconciled := Reconciled(MergingEnabled(MergeWith(current, local)), current, backups,
        Handed(submitted, overwrite, current));
      if reconciled.Refused? then reconciled else NamesChecked(local, current, reconciled.tree)
  }

  /** Only a master takes commits. One made from the current version is refused for a change of name alone and otherwise
      taken as it is; any other needs merging to be enabled and its version to be kept. */
  lemma Commits(local: Cfg, current: Cfg, backups: map<string, Cfg>, submitted: Cfg)
    ensures var r := CommitOutcome(local, current, backups, submitted, false);
      var stale := VersionOf(submitted) != VersionOf(current);
      var merging := MergingEnabled(MergeWith(current, local));
      && (r == Refused(NotMaster) <==> !IsMaster(local))
      && (r == Refused(VersionsDiffer) <==> IsMaster(local) && stale && !merging)
      && (r == Refused(NoOriginal) <==> IsMaster(local) && stale && merging && VersionOf(submitted) !in backups)
      && (IsMaster(local) && !stale ==>
            r == if Lookup(submitted, NAME) == Lookup(MergeWith(current, local), NAME) then Accepted(submitted)
                 else Refused(NamesDiffer))
  {}

  /** What becomes of a commit made from an older version that is kept, where merging is enabled, read off the trees. */
  lemma StaleCommits(local: Cfg, current: Cfg, backups: map<string, Cfg>, submitted: Cfg, base: Cfg)
    requires IsMaster(local) && MergingEnabled(MergeWith(current, local)) && VersionOf(submitted) != VersionOf(current)
    requires VersionOf(submitted) in backups && backups[VersionOf(submitted)] == base
    ensures var r := CommitOutcome(local, current, backups, submitted, false);
      var conflict := exists path :: ConflictAt(base, current, submitted, path);
      var failure := !conflict && exists path :: EntersDropped(base, current, submitted, path);
      var name := Lookup(if Lookup(submitted, NAME) != Lookup(base, NAME) then submitted else current, NAME);
      var renamed := name != Lookup(MergeWith(current, local), NAME);
      && (r == Refused(MergeConflict) <==> conflict)
      && (r == Refused(MergeFailed) <==> failure)
      && (r == Refused(NamesDiffer) <==> !conflict && !failure && renamed)
      && (r.Accepted? <==> !conflict && !failure && !renamed)
  {
    MergeOutcome(base, current, submitted);
    if MergeIndependentUpdates(base, current, submitted).Merged? { MergeIsThreeWay(base, current, submitted, NAME); }
  }

  /** A tree handed in under the current version is refused only for a change of name, and is taken over whole but
      for its version, whatever version it was made from. */
  lemma OverwriteKeepsTree(local: Cfg, current: Cfg, backups: map<string, Cfg>, submitted: Cfg)
    requires IsMaster(local)
    ensures var r := CommitOutcome(local, current, backups, submitted, true);
      && (r.Accepted? <==> Lookup(submitted, NAME) == Lookup(MergeWith(current, local), NAME))
      && (r.Accepted? ==> forall p :: p != VERSION ==> Lookup(r.tree, p) == Lookup(submitted, p))
      && (r.Accepted? ==> VersionOf(r.tree) == VersionOf(current))
  {
    VersionSet(submitted, VersionOf(current));
    assert NAME != VERSION by { assert NAME[2] != VERSION[2]; }
  }

  datatype ContentsResult = Contents(data: Compressed) | Failure(error: CommitError) | Raised

  /** What came of reading the version, and of committing it if that went well. */
  datatype RollbackResult = RolledBack(contents: ContentsResult, commit: Option<CommitResult>)

  /** Archives open for reading, writing, creating or appending; any other mode raises. */
  const MODES := ["r", "w", "x", "a"]

  /** The mode that the service asks for. */
  const ARCHIVE_MODE := "rb"

  method OpenArchive(archived: Cfg, mode: string) returns (tree: Option<Cfg>)
    ensures tree == if mode in MODES then Some(archived) else None
  {
    tree := if mode in MODES then Some(archived) else None;
  }

  datatype Slave = Slave(url: string, seen: int)

  datatype Ping = NoReply | AnotherService | ConfigurationServer

  function Urls(slaves: seq<Slave>): (r: seq<string>)
    ensures |r| == |slaves|
  {
    seq(|slaves|, i requires 0 <= i < |slaves| => slaves[i].url)
  }

  /** The slaves heard of within the grace time. */
  function InGrace(slaves: seq<Slave>, now: int, grace: int): seq<Slave> {
    if slaves == [] then []
    else
      var most, last := InGrace(slaves[..|slaves| - 1], now, grace), slaves[|slaves| - 1];
      if now - last.seen > grace then most else most + [last]
  }

  lemma {:induction false} InGraceKeeps(slaves: seq<Slave>, now: int, grace: int)
    ensures forall s :: s in InGrace(slaves, now, grace) <==> s in slaves && now - s.seen <= grace
    ensures |InGrace(slaves, now, grace)| <= |slaves|
    ensures |InGrace(slaves, now, grace)| == |slaves| <==> InGrace(slaves, now, grace) == slaves
  {
    if slaves != [] {
      InGraceKeeps(slaves[..|slaves| - 1], now, grace);
      assert slaves == slaves[..|slaves| - 1] + [slaves[|slaves| - 1]];
    }
  }

  /** A master names itself, but makes a new version only for a file without one. */
  function Versioned(file: Cfg, name: string, now: string): Cfg {
    var named := SetOption(file, NAME, name);
    if VersionOf(named) == "0" then SetOption(named, VERSION, now) else named
  }

  /** It lists its own address among the servers, and has it as the master's. */
  function Owned(local: Cfg, c: Cfg, url: string): Cfg {
    SetOption(if url in ServersOf(local, c) then c else SetOption(c, SERVERS, url), MASTER, url)
  }

  /** The tree a master hands out after reading `file`. */
  function Exported(local: Cfg, file: Cfg, name: string, url: string, now: string): Cfg {
    Owned(local, Versioned(file, name, now), url)
  }

  /** The options that the service writes itself. */
  const OWN := {NAME, MASTER, VERSION, SERVERS}

  /** What a master hands out, option by option: the name, its address as that of the master, a version, and among the
      servers its own address; everything else is as in the file. */
  lemma ExportedIs(local: Cfg, file: Cfg, name: string, url: string, now: string, p: seq<string>)
    requires Clean(url, ',') && now != []
    ensures var tree := Exported(local, file, name, url, now);
      && Lookup(tree, NAME) == Some(name) && Lookup(tree, MASTER) == Some(url)
      && VersionOf(tree) == (if VersionOf(file) == "0" then now else VersionOf(file))
      && url in ServersOf(local, tree)
      && (Lookup(tree, SERVERS) == if url in ServersOf(local, file) then Lookup(file, SERVERS) else Some(url))
      && (p !in OWN ==> Lookup(tree, p) == Lookup(file, p))
  {
    NamesAndVersions(file, name, now, p);
    SameServers(local, Versioned(file, name, now), file);
    ListsAndOwns(local, Versioned(file, name, now), url, p);
  }

  /** The first two steps of the export. */
  lemma NamesAndVersions(file: Cfg, name: string, now: string, p: seq<string>)
    requires now != []
    ensures var tree := Versioned(file, name, now);
      && Lookup(tree, NAME) == Some(name)
      && VersionOf(tree) == (if VersionOf(file) == "0" then now else VersionOf(file))
      && Lookup(tree, SERVERS) == Lookup(file, SERVERS)
      && (p !in OWN ==> Lookup(tree, p) == Lookup(file, p))
  {
    PathsDiffer();
    SetsOnly(file, NAME, name, p);
    SetsOnly(SetOption(file, NAME, name), VERSION, now, p);
  }

  lemma SameServers(local: Cfg, one: Cfg, two: Cfg)
    requires Lookup(one, SERVERS) == Lookup(two, SERVERS)
    ensures ServersOf(local, one) == ServersOf(local, two)
  {}

  /** The last two steps of the export. */
  lemma ListsAndOwns(local: Cfg, c: Cfg, url: string, p: seq<string>)
    requires Clean(url, ',')
    ensures var tree := Owned(local, c, url);
      && Lookup(tree, NAME) == Lookup(c, NAME) && Lookup(tree, MASTER) == Some(url)
      && Lookup(tree, VERSION) == Lookup(c, VERSION)
      && url in ServersOf(local, tree)
      && Lookup(tree, SERVERS) == (if url in ServersOf(local, c) then Lookup(c, SERVERS) else Some(url))
      && (p !in OWN ==> Lookup(tree, p) == Lookup(c, p))
  {
    PathsDiffer();
    var listed := if url in ServersOf(local, c) then c else SetOption(c, SERVERS, url);
    SetsOnly(c, SERVERS, url, p);
    SetsOnly(listed, MASTER, url, p);
    SameServers(local, SetOption(listed, MASTER, url), listed);
    ListedAlone(local, listed, url);
  }

  lemma SetsOnly(c: Cfg, path: seq<string>, value: string, p: seq<string>)
    requires path != []
    ensures forall q :: q in OWN + {p} ==>
      Lookup(SetOption(c, path, value), q) == if q == path then Some(value) else Lookup(c, q)
  {
    forall q | q in OWN + {p}
      ensures Lookup(SetOption(c, path, value), q) == if q == path then Some(value) else Lookup(c, q)
    {
      LookupSet(c, path, value, q);
    }
  }

  /** A republished tree has the given servers and version, and is otherwise the tree it was. */
  lemma RepublishedIs(tree: Cfg, urls: seq<string>, now: string, p: seq<string>)
    requires AllClean(urls, ',') && now != []
    ensures var after := Republished(tree, urls, now);
      && Listed(after) == urls && VersionOf(after) == now
      && (p != VERSION && p != SERVERS ==> Lookup(after, p) == Lookup(tree, p))
  {
    PathsDiffer();
    SetsOnly(tree, SERVERS, Join(urls), p);
    SetsOnly(SetOption(tree, SERVERS, Join(urls)), VERSION, now, p);
    JoinRoundTrip(urls);
  }

  /** A master that starts from a file with a version hands out that version. What it hands out is the tree the
      version stands for exactly when the file already has its name, lists its address and has it as master's. */
  lemma RestartKeepsTree(local: Cfg, file: Cfg, name: string, url: string, now: string)
    requires VersionOf(file) != "0" && Clean(url, ',')
    ensures VersionOf(Exported(local, file, name, url, now)) == VersionOf(file)
    ensures Exported(local, file, name, url, now) == file <==>
      Lookup(file, NAME) == Some(name) && url in ServersOf(local, file) && Lookup(file, MASTER) == Some(url)
  {
    PathsDiffer();
    var named := SetOption(file, NAME, name);
    LookupSet(file, NAME, name, VERSION);
    LookupSet(file, NAME, name, SERVERS);
    assert VersionOf(named) == VersionOf(file) && ServersOf(local, named) == ServersOf(local, file);
    var listed := if url in ServersOf(local, named) then named else SetOption(named, SERVERS, url);
    LookupSet(named, SERVERS, url, VERSION);
    LookupSet(listed, MASTER, url, VERSION);
    assert Exported(local, file, name, url, now) == SetOption(listed, MASTER, url);
    SetSame(file, NAME, name);
    SetSame(listed, MASTER, url);
    if SetOption(listed, MASTER, url) == file {
      LookupSet(listed, MASTER, url, MASTER);
      LookupSet(listed, MASTER, url, NAME);
      LookupSet(named, SERVERS, url, NAME);
      LookupSet(file, NAME, name, NAME);
      LookupSet(listed, MASTER, url, SERVERS);
      LookupSet(named, SERVERS, url, SERVERS);
      ListedAlone(local, file, url);
    }
  }

  /** Once slaves have been published, a restart keeps the tree only if the master's address is among theirs or in its
      own file: a new list names slaves alone, and the restarted master writes its address over it. */
  lemma RestartWithSlaves(local: Cfg, tree: Cfg, urls: seq<string>, now: string, name: string, url: string,
                          later: string)
    requires now != [] && now != "0" && Clean(url, ',') && AllClean(urls, ',')
    ensures var file := Republished(tree, urls, now);
      && VersionOf(Exported(local, file, name, url, later)) == VersionOf(file) == now
      && (Exported(local, file, name, url, later) == file <==>
            && Lookup(tree, NAME) == Some(name) && Lookup(tree, MASTER) == Some(url)
            && (url in Listed(local) || url in urls))
  {
    var listed, file := SetOption(tree, SERVERS, Join(urls)), Republished(tree, urls, now);
    PathsDiffer();
    VersionSet(listed, now);
    LookupSet(tree, SERVERS, Join(urls), NAME);
    LookupSet(tree, SERVERS, Join(urls), MASTER);
    ServersSet(local, tree, urls);
    LookupSet(listed, VERSION, now, SERVERS);
    RestartKeepsTree(local, file, name, url, later);
  }

  lemma ListedAlone(local: Cfg, file: Cfg, url: string)
    requires Clean(url, ',')
    ensures Lookup(file, SERVERS) == Some(url) ==> url in ServersOf(local, file)
  {
    if Lookup(file, SERVERS) == Some(url) {
      JoinRoundTrip([url]);
      assert Listed(file) == [url] && url in Listed(file);
      ServersAreListedOnce(local, file);
    }
  }

  lemma PathsDiffer()
    ensures NAME != VERSION && NAME != SERVERS && NAME != MASTER && VERSION != SERVERS && VERSION != MASTER
      && SERVERS != MASTER
  {
    assert NAME[2] == "Name" && VERSION[2] == "Version" && SERVERS[2] == "Servers" && MASTER[2] == "MasterServer";
  }

  class ServiceInterface {
    const data: ConfigurationData
    var alive: seq<Slave>
    var backups: map<string, Cfg>

    constructor (data: ConfigurationData)
      ensures this.data == data && alive == [] && backups == map[]
    {
      this.data, alive, backups := data, [], map[];
    }

    /** Reading the configuration at start; a master without a name gives up. */
    method LoadConfigurationData(file: Cfg, url: string, now: string) returns (aborted: bool)
      requires data.Valid() && now != []
      modifies data
      ensures data.Valid() && data.localCFG == old(data.localCFG)
      ensures aborted == (IsMaster(data.localCFG) && Text(MergeWith(file, data.localCFG), NAME) == [])
      ensures data.remoteCFG == if aborted || !IsMaster(data.localCFG) then file
        else Exported(data.localCFG, file, Text(MergeWith(file, data.localCFG), NAME), url, now)
    {
      data.SetRemoteCFG(file, false);
      PathsAreClean();
      var name := data.GetText(NAME, data.mergedCFG);
      var master := MayModify();
      aborted := master && name == [];
      if aborted || !master { return; }
      data.SetRemote(NAME, name);
      var version := data.GetVersion();
      if version == "0" { data.GenerateNewVersion(now); }
      if url !in data.remoteServerList { data.SetServers(url); }
      data.SetMasterServer(url);
    }

    method MayModify() returns (master: bool)
      ensures master == IsMaster(data.localCFG)
    {
      FlagsAreClean();
      var text := data.GetText(IS_MASTER, data.localCFG);
      master := Affirmative(text);
    }

    /** Refused commits leave everything as it was. An accepted tree is in force under a new version, even
        when it could not be written to disk; only a written one is kept for later merges. */
    method UpdateConfiguration(buffer: Compressed, now: string, overwrite: bool, written: bool)
      returns (result: CommitResult)
      requires data.Valid() && now != []
      modifies this`backups, data
      ensures data.Valid() && data.localCFG == old(data.localCFG)
      ensures result == CommitOutcome(old(data.localCFG), old(data.remoteCFG), old(backups), buffer.tree, overwrite)
      ensures result.Refused? ==> data.remoteCFG == old(data.remoteCFG) && backups == old(backups)
      ensures result.Accepted? ==>
        && data.remoteCFG == SetOption(result.tree, VERSION, now)
        && backups == if written then old(backups)[now := data.remoteCFG] else old(backups)
    {
      var master := MayModify();
      if !master { return Refused(NotMaster); }
      var remote := Receive(buffer, overwrite);
      result := Reconcile(remote, overwrite);
      if result.Refused? { return; }
      result := CommitChecked(remote, now, written);
    }

    method Receive(buffer: Compressed, overwrite: bool) returns (remote: ConfigurationData)
      requires data.Valid()
      ensures fresh(remote) && remote.Valid() && remote.localCFG == EMPTY
      ensures remote.remoteCFG == Handed(buffer.tree, overwrite, data.remoteCFG)
      ensures overwrite ==> VersionOf(remote.remoteCFG) == VersionOf(data.remoteCFG)
    {
      remote := new ConfigurationData();
      remote.LoadRemoteCFGFromCompressedMem(buffer);
      if overwrite {
        var version := data.GetVersion();
        VersionSet(remote.remoteCFG, version);
        remote.SetVersion(version);
      }
    }

    /** A tree made from an older version is merged with the current one where that is enabled. */
    method Reconcile(remote: ConfigurationData, overwritten: bool) returns (result: CommitResult)
      requires data.Valid() && remote != data && remote.Valid()
      requires overwritten ==> VersionOf(remote.remoteCFG) == VersionOf(data.remoteCFG)
      modifies remote
      ensures remote.Valid() && remote.localCFG == old(remote.localCFG)
      ensures result == Reconciled(MergingEnabled(data.mergedCFG), data.remoteCFG, backups, old(remote.remoteCFG))
      ensures result.Accepted? ==> remote.remoteCFG == result.tree
    {
      FlagsAreClean();
      var remoteVersion := remote.GetVersion();
      var localVersion := data.GetVersion();
      if remoteVersion != localVersion {
        assert !overwritten;
        var merging := data.GetText(AUTO_MERGE, data.mergedCFG);
        if !Affirmative(merging) { return Refused(VersionsDiffer); }
        if remoteVersion !in backups { return Refused(NoOriginal); }
        var merged := MergeIndependentUpdates(backups[remoteVersion], data.remoteCFG, remote.remoteCFG);
        if merged.Conflict? { return Refused(MergeConflict); }
        if merged.Failed? { return Refused(MergeFailed); }
        remote.SetRemoteCFG(merged.tree, false);
      }
      result := Accepted(remote.remoteCFG);
    }

    /** The end of an update, once the versions agree. */
    method CommitChecked(remote: ConfigurationData, now: string, written: bool) returns (result: CommitResult)
      requires data.Valid() && now != [] && remote != data && remote.Valid() && remote.localCFG == EMPTY
      modifies this`backups, data
      ensures data.Valid() && data.localCFG == old(data.localCFG)
      ensures result == NamesChecked(old(data.localCFG), old(data.remoteCFG), remote.remoteCFG)
      ensures result.Refused? ==> data.remoteCFG == old(data.remoteCFG) && backups == old(backups)
      ensures result.Accepted? ==>
        && data.remoteCFG == SetOption(result.tree, VERSION, now)
        && backups == if written then old(backups)[now := data.remoteCFG] else old(backups)
    {
      PathsAreClean();
      LookupMerged(remote.remoteCFG, remote.localCFG, NAME);
      NothingLocal(NAME);
      PathRoundTrip(NAME);
      var remoteName := remote.ExtractOption(PathTo(NAME), remote.mergedCFG);
      var localName := data.ExtractOption(PathTo(NAME), data.mergedCFG);
      if remoteName != localName { return Refused(NamesDiffer); }
      data.SetRemoteCFG(remote.remoteCFG, false);
      data.GenerateNewVersion(now);
      if written { backups := backups[now := data.remoteCFG]; }
      result := Accepted(remote.remoteCFG);
    }

    /** The contents of a kept version, its archive being opened in the given mode. */
    method GetVersionContents(version: string, mode: string) returns (result: ContentsResult)
      ensures result == if version !in backups then Failure(NoSuchVersion)
        else if mode in MODES then Contents(Zipped(backups[version])) else Raised
    {
      if version !in backups { return Failure(NoSuchVersion); }
      var archive := OpenArchive(backups[version], mode);
      result := if archive.None? then Raised else Contents(Zipped(archive.value));
    }

    /** What is read is committed over whatever the version is by then. */
    method Rollback(version: string, mode: string, now: string, written: bool) returns (result: RollbackResult)
      requires data.Valid() && now != []
      modifies this`backups, data
      ensures data.Valid() && data.localCFG == old(data.localCFG)
      ensures result.commit.Some? <==> version in old(backups) && mode in MODES
      ensures result.commit.Some? ==>
        result.commit.value
        == CommitOutcome(data.localCFG, old(data.remoteCFG), old(backups), old(backups)[version], true)
      ensures result.commit.None? ==>
        result.contents == if version in old(backups) then Raised else Failure(NoSuchVersion)
      ensures result.commit.None? || result.commit.value.Refused? ==>
        data.remoteCFG == old(data.remoteCFG) && backups == old(backups)
    {
      var contents := GetVersionContents(version, mode);
      if !contents.Contents? { return RolledBack(contents, None); }
      var commit := UpdateConfiguration(contents.data, now, true, written);
      result := RolledBack(contents, Some(commit));
    }

    /** No rollback is ever accepted: it raises for every version that is kept, and fails for every other one. */
    method RollbackToVersion(version: string, now: string, written: bool) returns (result: RollbackResult)
      requires data.Valid() && now != []
      modifies this`backups, data
      ensures data.Valid() && data.localCFG == old(data.localCFG) && data.remoteCFG == old(data.remoteCFG)
      ensures backups == old(backups)
      ensures result == RolledBack(if version in backups then Raised else Failure(NoSuchVersion), None)
    {
      result := Rollback(version, ARCHIVE_MODE, now, written);
    }

    /** A slave seen for the first time changes the server list and the version; one seen again changes nothing
        but its time. */
    method PublishSlaveServer(url: string, ping: Ping, seen: int, now: string)
      requires data.Valid() && now != []
      modifies this`alive, data
      ensures data.Valid() && data.localCFG == old(data.localCFG)
      ensures !IsMaster(data.localCFG) || !ping.ConfigurationServer? ==>
        alive == old(alive) && data.remoteCFG == old(data.remoteCFG)
      ensures IsMaster(data.localCFG) && ping.ConfigurationServer? && url in Urls(old(alive)) ==>
        && data.remoteCFG == old(data.remoteCFG)
        && Urls(alive) == Urls(old(alive))
        && (forall s :: s in alive ==> s == Slave(url, seen) || (s in old(alive) && s.url != url))
      ensures IsMaster(data.localCFG) && ping.ConfigurationServer? && url !in Urls(old(alive)) ==>
        && alive == old(alive) + [Slave(url, seen)]
        && data.remoteCFG == Republished(old(data.remoteCFG), Urls(alive), now)
    {
      var master := MayModify();
      if !master || !ping.ConfigurationServer? { return; }
      if url in Urls(alive) {
        ghost var before := alive;
        alive := seq(|alive|, i requires 0 <= i < |alive| reads this =>
          if alive[i].url == url then Slave(url, seen) else alive[i]);
        assert Urls(alive) == Urls(before);
      } else {
        alive := alive + [Slave(url, seen)];
        Republish(now);
      }
    }

    /** Slaves unheard of for too long are dropped, and only then is there a new version. */
    method CheckSlavesStatus(time: int, grace: int, force: bool, now: string)
      requires data.Valid() && now != [] && IsMaster(data.localCFG)
      modifies this`alive, data
      ensures data.Valid() && data.localCFG == old(data.localCFG) && alive == InGrace(old(alive), time, grace)
      ensures data.remoteCFG == if force || alive != old(alive) then Republished(old(data.remoteCFG), Urls(alive), now)
        else old(data.remoteCFG)
    {
      var modified := DropSilent(time, grace);
      if modified || force { Republish(now); }
    }

    method DropSilent(time: int, grace: int) returns (modified: bool)
      modifies this`alive
      ensures alive == InGrace(old(alive), time, grace) && modified == (alive != old(alive))
    {
      var kept := [];
      modified := false;
      for i := 0 to |alive|
        invariant alive == old(alive)
        invariant kept == InGrace(alive[..i], time, grace)
        invariant |kept| <= i && (modified <==> |kept| < i)
      {
        assert alive[..i + 1][..i] == alive[..i];
        if time - alive[i].seen > grace {
          modified := true;
        } else {
          kept := kept + [alive[i]];
        }
      }
      assert alive[..|alive|] == alive;
      InGraceKeeps(alive, time, grace);
      alive := kept;
    }

    method Republish(now: string)
      requires data.Valid() && now != []
      modifies data
      ensures data.Valid() && data.localCFG == old(data.localCFG)
      ensures data.remoteCFG == Republished(old(data.remoteCFG), Urls(alive), now)
    {
      data.SetServers(Join(Urls(alive)));
      data.GenerateNewVersion(now);
    }
  }

  /** The tree with a new list of servers, under a new version. */
  function Republished(tree: Cfg, urls: seq<string>, now: string): Cfg {
    SetOption(SetOption(tree, SERVERS, Join(urls)), VERSION, now)
  }

  lemma FlagsAreClean()
    ensures AllClean(IS_MASTER, '/') && AllClean(AUTO_MERGE, '/')
  {}

  lemma NothingLocal(path: seq<string>)
    ensures Lookup(EMPTY, path) == None
  {}

  /** The version always; the data only for a caller who has an older one. */
  method GetCompressedDataIfNewer(server: ConfigurationData, clientVersion: string)
    returns (newest: string, data: Option<Compressed>)
    requires server.Valid()
    modifies server`compressed
    ensures server.Valid() && newest == VersionOf(server.remoteCFG)
    ensures data == if Before(clientVersion, newest) then Some(Zipped(server.remoteCFG)) else None
  {
    newest := server.GetVersion();
    data := None;
    if Before(clientVersion, newest) {
      var zipped := server.GetCompressedData();
      data := Some(zipped);
    }
  }

  /** An undisturbed refresh: the node ends up with the newer of the two trees. */
  method UpdateFromRemoteLocation(node: ConfigurationData, server: ConfigurationData)
    requires node != server && node.Valid() && server.Valid()
    modifies node, server`compressed
    ensures node.Valid() && server.Valid() && node.localCFG == old(node.localCFG)
    ensures node.remoteCFG
      == if Before(VersionOf(old(node.remoteCFG)), VersionOf(server.remoteCFG)) then server.remoteCFG
         else old(node.remoteCFG)
    ensures AtMost(VersionOf(old(node.remoteCFG)), VersionOf(node.remoteCFG))
    ensures AtMost(VersionOf(server.remoteCFG), VersionOf(node.remoteCFG))
  {
    var localVersion := node.GetVersion();
    var newest, data := GetCompressedDataIfNewer(server, localVersion);
    BeforeIsTotal(localVersion, newest);
    if Before(localVersion, newest) {
      node.LoadRemoteCFGFromCompressedMem(data.value);
    }
  }
}
