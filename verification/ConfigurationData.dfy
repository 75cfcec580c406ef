/** The configuration of one process, and what it derives from the trees it holds. */
module ConfigurationDatas {
  import opened Options
  import opened Cfgs
  import opened Lists

  const CONFIGURATION := ["DIRAC", "Configuration"]
  const SERVERS := CONFIGURATION + ["Servers"]
  const VERSION := CONFIGURATION + ["Version"]
  const MASTER := CONFIGURATION + ["MasterServer"]
  const NAME := CONFIGURATION + ["Name"]

  /** A tree written as text and compressed, which loses nothing. */
  datatype Compressed = Zipped(tree: Cfg)

  datatype Target = Local | Remote

  /** The text of an option, a missing option read as an empty one. */
  function Text(c: Cfg, path: seq<string>): string {
    var v := Lookup(c, path);
    if v.Some? then v.value else []
  }

  function VersionOf(c: Cfg): string {
    if Text(c, VERSION) == [] then "0" else Text(c, VERSION)
  }

  function Listed(c: Cfg): seq<string> {
    FromChar(Text(c, SERVERS), ',')
  }

  function ServersOf(local: Cfg, remote: Cfg): seq<string> {
    Unique(Listed(local) + Listed(remote))
  }

  /** The entry at the end of the path dropped; None when a section on the way is missing. */
  function DeleteEntry(c: Cfg, path: seq<string>): Option<Cfg>
    requires path != []
    decreases |path|
  {
    if |path| == 1 then Some(Cfg(c.options - {path[0]}, c.sections - {path[0]}))
    else if path[0] !in c.sections then None
    else
      var sub := DeleteEntry(c.sections[path[0]], path[1..]);
      if sub.None? then None else Some(c.(sections := c.sections[path[0] := sub.value]))
  }

  lemma PathsAreClean()
    ensures AllClean(SERVERS, '/') && AllClean(VERSION, '/') && AllClean(MASTER, '/') && AllClean(NAME, '/')
  {
    assert Clean("DIRAC", '/') && Clean("Configuration", '/');
    assert Clean("Servers", '/') && Clean("Version", '/') && Clean("MasterServer", '/') && Clean("Name", '/');
  }

  lemma VersionSet(c: Cfg, version: string)
    requires version != []
    ensures VersionOf(SetOption(c, VERSION, version)) == version
    ensures forall p :: p != VERSION ==> Lookup(SetOption(c, VERSION, version), p) == Lookup(c, p)
  {
    forall p ensures Lookup(SetOption(c, VERSION, version), p) == if p == VERSION then Some(version) else Lookup(c, p) {
      LookupSet(c, VERSION, version, p);
    }
  }

  /** Nothing is found at or below the path any more, and every other path leads where it did. A deletion
      that stops at a missing section had nothing to delete. */
  lemma {:induction false} LookupDeleted(c: Cfg, path: seq<string>, p: seq<string>)
    requires path != []
    ensures DeleteEntry(c, path).Some? ==>
      Lookup(DeleteEntry(c, path).value, p) == if path <= p then None else Lookup(c, p)
    ensures DeleteEntry(c, path).None? && path <= p ==> Lookup(c, p) == None
    decreases |path|
  {
    if |path| == 1 {
      assert path == [path[0]];
    } else if |p| > 1 && p[0] == path[0] {
      assert path <= p <==> path[1..] <= p[1..] by {
        assert p == [p[0]] + p[1..] && path == [path[0]] + path[1..];
      }
      if path[0] in c.sections { LookupDeleted(c.sections[path[0]], path[1..], p[1..]); }
    }
  }

  /** A section at or below the path goes too, every other one stays, and deleting stops exactly where the section above
      is missing. */
  lemma {:induction false} SectionDeleted(c: Cfg, path: seq<string>, p: seq<string>)
    requires path != []
    ensures DeleteEntry(c, path).Some? <==> Section(c, path[..|path| - 1]).Some?
    ensures DeleteEntry(c, path).Some? ==>
      (Section(DeleteEntry(c, path).value, p).Some? <==> Section(c, p).Some? && !(path <= p))
    decreases |path|
  {
    if |path| == 1 {
      assert path == [path[0]];
    } else {
      assert path[..|path| - 1][1..] == path[1..][..|path[1..]| - 1];
      if path[0] in c.sections { SectionDeleted(c.sections[path[0]], path[1..], if p == [] then [] else p[1..]); }
      assert path == [path[0]] + path[1..] && (p != [] ==> p == [p[0]] + p[1..]);
    }
  }

  predicate OwnBefore(all: seq<string>, own: seq<string>) {
    forall i, j :: 0 <= i < |all| && 0 <= j < |all| && all[i] in own && all[j] !in own ==> i < j
  }

  /** The configured servers: each named once, those of the local tree before those only the remote tree names. */
  lemma ServersAreListedOnce(local: Cfg, remote: Cfg)
    ensures NoDuplicates(ServersOf(local, remote))
    ensures forall url :: url in ServersOf(local, remote) <==> url in Listed(local) || url in Listed(remote)
    ensures OwnBefore(ServersOf(local, remote), Listed(local))
  {
    UniqueHasAll(Listed(local) + Listed(remote));
    OwnFirst(Listed(local), Listed(remote));
  }

  lemma OwnFirst(own: seq<string>, far: seq<string>)
    ensures OwnBefore(Unique(own + far), own)
  {
    var all := Unique(own + far);
    forall i, j | 0 <= i < |all| && 0 <= j < |all| && all[i] in own && all[j] !in own ensures i < j {
      if j < i {
        UniqueKeepsOrder(own + far, j, i);
        IndexInOwn(own, far, all[i]);
        IndexInOwn(own, far, all[j]);
        assert false;
      }
    }
  }

  lemma {:induction false} IndexInOwn(own: seq<string>, far: seq<string>, x: string)
    requires x in own + far
    ensures x in own <==> FirstIndex(own + far, x) < |own|
  {
    if own == [] {
    } else if own[0] != x {
      assert (own + far)[1..] == own[1..] + far;
      IndexInOwn(own[1..], far, x);
    }
  }

  /** Every server of a list that is set is known from then on, whatever the local tree says. */
  lemma ServersSet(local: Cfg, remote: Cfg, urls: seq<string>)
    requires AllClean(urls, ',')
    ensures forall url :: url in ServersOf(local, SetOption(remote, SERVERS, Join(urls))) <==>
      url in Listed(local) || url in urls
  {
    LookupSet(remote, SERVERS, Join(urls), SERVERS);
    JoinRoundTrip(urls);
    assert Listed(SetOption(remote, SERVERS, Join(urls))) == urls;
    ServersAreListedOnce(local, SetOption(remote, SERVERS, Join(urls)));
  }

  class ConfigurationData {
    var localCFG: Cfg
    var remoteCFG: Cfg
    var mergedCFG: Cfg
    var remoteServerList: seq<string>
    var compressed: Option<Compressed>

    /** What is derived matches the two trees it is derived from. */
    ghost predicate Valid()
      reads this
    {
      && mergedCFG == MergeWith(remoteCFG, localCFG)
      && remoteServerList == ServersOf(localCFG, remoteCFG)
      && (compressed.Some? ==> compressed.value == Zipped(remoteCFG))
    }

    function Chosen(target: Target): Cfg
      reads this
    {
      if target.Local? then localCFG else remoteCFG
    }

    /** Without a local configuration file. */
    constructor ()
      ensures Valid() && localCFG == remoteCFG == EMPTY
    {
      localCFG, remoteCFG, mergedCFG, remoteServerList, compressed := EMPTY, EMPTY, EMPTY, [], None;
      new;
      Sync();
    }

    /** Walks from section to section. */
    method ExtractOption(path: string, cfg: Cfg) returns (value: Option<string>)
      ensures value == Lookup(cfg, Levels(path))
    {
      var levels := Levels(path);
      if levels == [] { return None; }
      var c := cfg;
      for i := 0 to |levels| - 1
        invariant Lookup(c, levels[i..]) == Lookup(cfg, levels)
      {
        if levels[i] !in c.sections { return None; }
        c := c.sections[levels[i]];
        assert levels[i..][1..] == levels[i + 1..];
      }
      var last := levels[|levels| - 1];
      assert levels[|levels| - 1..] == [last];
      return if last in c.options then Some(c.options[last]) else None;
    }

    /** The local value where there is one, else the remote one. */
    method GetOption(path: string) returns (value: Option<string>)
      requires Valid()
      ensures value == if Lookup(localCFG, Levels(path)).Some? then Lookup(localCFG, Levels(path))
        else Lookup(remoteCFG, Levels(path))
    {
      LookupMerged(remoteCFG, localCFG, Levels(path));
      value := ExtractOption(path, mergedCFG);
    }

    method GetText(levels: seq<string>, cfg: Cfg) returns (text: string)
      requires AllClean(levels, '/')
      ensures text == Text(cfg, levels)
    {
      PathRoundTrip(levels);
      var value := ExtractOption(PathTo(levels), cfg);
      text := if value.Some? then value.value else [];
    }

    method Sync()
      modifies `mergedCFG, `remoteServerList, `compressed
      ensures Valid() && compressed.None?
    {
      mergedCFG := MergeWith(remoteCFG, localCFG);
      EmptyList();
      PathsAreClean();
      remoteServerList := [];
      var own := GetText(SERVERS, localCFG);
      if own != [] { remoteServerList := remoteServerList + FromChar(own, ','); }
      assert remoteServerList == Listed(localCFG);
      var far := GetText(SERVERS, remoteCFG);
      if far != [] { remoteServerList := remoteServerList + FromChar(far, ','); }
      assert remoteServerList == Listed(localCFG) + Listed(remoteCFG);
      remoteServerList := UniqueElements(remoteServerList);
      compressed := None;
    }

    method MergeWithLocal(extra: Cfg)
      modifies this
      ensures Valid() && remoteCFG == old(remoteCFG) && localCFG == MergeWith(old(localCFG), extra)
    {
      localCFG := MergeWith(localCFG, extra);
      Sync();
    }

    method LoadRemoteCFGFromCompressedMem(data: Compressed)
      modifies this
      ensures Valid() && localCFG == old(localCFG) && remoteCFG == data.tree
    {
      remoteCFG := data.tree;
      Sync();
    }

    /** A path without levels raises before anything is changed. */
    method SetOptionInCFG(target: Target, path: string, value: string) returns (raised: bool)
      requires Valid()
      modifies this
      ensures Valid() && raised == (Levels(path) == [])
      ensures raised ==> localCFG == old(localCFG) && remoteCFG == old(remoteCFG)
      ensures !raised && target.Local? ==>
        localCFG == SetOption(old(localCFG), Levels(path), value) && remoteCFG == old(remoteCFG)
      ensures !raised && target.Remote? ==>
        remoteCFG == SetOption(old(remoteCFG), Levels(path), value) && localCFG == old(localCFG)
    {
      var levels := Levels(path);
      if levels == [] { return true; }
      if target.Local? {
        localCFG := SetOption(localCFG, levels, value);
      } else {
        remoteCFG := SetOption(remoteCFG, levels, value);
      }
      Sync();
      raised := false;
    }

    /** Returns early, without a sync, when a section on the way is missing: then there is nothing to drop. */
    method DeleteOptionInCFG(target: Target, path: string) returns (raised: bool)
      requires Valid()
      modifies this
      ensures Valid() && raised == (Levels(path) == [])
      ensures target.Local? ==> remoteCFG == old(remoteCFG)
      ensures target.Remote? ==> localCFG == old(localCFG)
      ensures raised ==> localCFG == old(localCFG) && remoteCFG == old(remoteCFG)
      ensures !raised ==>
        forall p :: Lookup(Chosen(target), p) == if Levels(path) <= p then None else Lookup(old(Chosen(target)), p)
    {
      var levels := Levels(path);
      if levels == [] { return true; }
      raised := false;
      var before := Chosen(target);
      forall p ensures
        && (DeleteEntry(before, levels).Some? ==>
              Lookup(DeleteEntry(before, levels).value, p) == if levels <= p then None else Lookup(before, p))
        && (DeleteEntry(before, levels).None? && levels <= p ==> Lookup(before, p) == None)
      {
        LookupDeleted(before, levels, p);
      }
      var after := DeleteEntry(before, levels);
      if after.None? { return; }
      if target.Local? { localCFG := after.value; } else { remoteCFG := after.value; }
      Sync();
    }

    method GetVersion() returns (version: string)
      ensures version == VersionOf(remoteCFG)
    {
      PathsAreClean();
      var text := GetText(VERSION, remoteCFG);
      version := if text == [] then "0" else text;
    }

    method SetVersion(version: string)
      requires Valid()
      modifies this
      ensures Valid() && localCFG == old(localCFG) && remoteCFG == SetOption(old(remoteCFG), VERSION, version)
    {
      PathsAreClean();
      SetRemote(VERSION, version);
    }

    method SetRemote(levels: seq<string>, value: string)
      requires Valid() && levels != [] && AllClean(levels, '/')
      modifies this
      ensures Valid() && localCFG == old(localCFG) && remoteCFG == SetOption(old(remoteCFG), levels, value)
    {
      PathRoundTrip(levels);
      var raised := SetOptionInCFG(Remote, PathTo(levels), value);
    }

    /** Only the version changes (VersionSet), and it reads as what was written. */
    method GenerateNewVersion(now: string)
      requires Valid() && now != []
      modifies this
      ensures Valid() && localCFG == old(localCFG) && remoteCFG == SetOption(old(remoteCFG), VERSION, now)
      ensures VersionOf(remoteCFG) == now
    {
      VersionSet(remoteCFG, now);
      SetVersion(now);
      Sync();
    }

    method SetServers(urls: string)
      requires Valid()
      modifies this
      ensures Valid() && localCFG == old(localCFG) && remoteCFG == SetOption(old(remoteCFG), SERVERS, urls)
    {
      PathsAreClean();
      SetRemote(SERVERS, urls);
      Sync();
    }

    method SetMasterServer(url: string)
      requires Valid()
      modifies this
      ensures Valid() && localCFG == old(localCFG) && remoteCFG == SetOption(old(remoteCFG), MASTER, url)
    {
      PathsAreClean();
      SetRemote(MASTER, url);
      Sync();
    }

    /** Compresses the remote tree unless a copy is at hand. */
    method GetCompressedData() returns (data: Compressed)
      requires Valid()
      modifies `compressed
      ensures Valid() && data == Zipped(remoteCFG)
    {
      if compressed.None? { compressed := Some(Zipped(remoteCFG)); }
      data := compressed.value;
    }

    /** With `disableSync` what is derived stays behind, and matches again exactly when nothing derived depends on
        the change. */
    method SetRemoteCFG(cfg: Cfg, disableSync: bool)
      requires Valid()
      modifies this
      ensures localCFG == old(localCFG) && remoteCFG == cfg
      ensures !disableSync ==> Valid()
      ensures disableSync ==>
        (Valid() <==>
          && MergeWith(cfg, localCFG) == MergeWith(old(remoteCFG), localCFG)
          && ServersOf(localCFG, cfg) == ServersOf(localCFG, old(remoteCFG))
          && (old(compressed).Some? ==> cfg == old(remoteCFG)))
    {
      remoteCFG := cfg;
      if !disableSync { Sync(); }
    }
  }
}
