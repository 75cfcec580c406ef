/** Differences between configuration trees, and the automatic merge of independent commits. */
module CfgEdits {
  import opened Options
  import opened Cfgs

  datatype OptionEdit = AddOpt(value: string) | ModOpt(value: string) | DelOpt

  datatype SectionEdit = AddSec(contents: Cfg) | DelSec | ModSec(edits: Edits)

  /** A list of modifications: one edit at most to each option and to each section. */
  datatype Edits = Edits(options: map<string, OptionEdit>, sections: map<string, SectionEdit>)

  const NOTHING := Edits(map[], map[])

  /** Adding needs the entry absent, changing and deleting need it present. */
  predicate OptionFits(c: Cfg, name: string, e: OptionEdit) {
    if e.AddOpt? then name !in c.options else name in c.options
  }

  predicate SectionFits(c: Cfg, name: string, e: SectionEdit)
    decreases e
  {
    match e
    case AddSec(_) => name !in c.sections
    case DelSec => name in c.sections
    case ModSec(edits) => name in c.sections && AppliesTo(c.sections[name], edits)
  }

  predicate AppliesTo(c: Cfg, e: Edits)
    decreases e
  {
    && (forall name :: name in e.options ==> OptionFits(c, name, e.options[name]))
    && (forall name :: name in e.sections ==> SectionFits(c, name, e.sections[name]))
  }

  function Applied(c: Cfg, e: Edits): Cfg
    requires AppliesTo(c, e)
  {
    Cfg(
      map name | name in c.options.Keys + e.options.Keys && !(name in e.options && e.options[name].DelOpt?) ::
        if name in e.options then e.options[name].value else c.options[name],
      map name | name in c.sections.Keys + e.sections.Keys && !(name in e.sections && e.sections[name].DelSec?) ::
        if name !in e.sections then c.sections[name]
        else
          match e.sections[name]
          case AddSec(contents) => contents
          case ModSec(edits) => assert SectionFits(c, name, e.sections[name]); Applied(c.sections[name], edits)
          case DelSec => EMPTY)
  }

  /** Applying a list of modifications fails as a whole when one of them does not fit. */
  function Apply(c: Cfg, e: Edits): Option<Cfg> {
    if AppliesTo(c, e) then Some(Applied(c, e)) else None
  }

  function Sub(c: Cfg, name: string): Option<Cfg> {
    if name in c.sections then Some(c.sections[name]) else None
  }

  /** The modifications that lead from one tree to another. */
  function Modifications(from: Cfg, to: Cfg): Edits {
    Edits(
      map name | name in from.options.Keys + to.options.Keys
        && !(name in from.options && name in to.options && from.options[name] == to.options[name]) ::
        if name !in to.options then DelOpt
        else if name !in from.options then AddOpt(to.options[name])
        else ModOpt(to.options[name]),
      map name | name in from.sections.Keys + to.sections.Keys
        && !(name in from.sections && name in to.sections && from.sections[name] == to.sections[name]) ::
        if name !in to.sections then DelSec
        else if name !in from.sections then AddSec(to.sections[name])
        else ModSec(Modifications(from.sections[name], to.sections[name])))
  }

  /** Applying the modifications between two trees to the first gives the second. */
  lemma {:induction false} ModificationsApply(from: Cfg, to: Cfg)
    ensures Apply(from, Modifications(from, to)) == Some(to)
    decreases from
  {
    var e := Modifications(from, to);
    forall name | name in e.sections ensures SectionFits(from, name, e.sections[name]) {
      if name in from.sections && name in to.sections {
        ModificationsApply(from.sections[name], to.sections[name]);
      }
    }
    assert AppliesTo(from, e);
    OptionsArrive(from, to);
    forall name ensures Sub(Applied(from, e), name) == Sub(to, name) {
      if name in from.sections && name in to.sections { ModificationsApply(from.sections[name], to.sections[name]); }
      SectionArrives(from, to, name);
    }
    SameSubs(Applied(from, e), to);
  }

  lemma SameSubs(c: Cfg, other: Cfg)
    requires forall name :: Sub(c, name) == Sub(other, name)
    ensures c.sections == other.sections
  {
    forall name ensures name in c.sections <==> name in other.sections { assert Sub(c, name) == Sub(other, name); }
    forall name | name in c.sections ensures c.sections[name] == other.sections[name] {
      assert Sub(c, name) == Sub(other, name);
    }
  }

  lemma ModifiedSection(from: Cfg, to: Cfg, name: string)
    ensures name in Modifications(from, to).sections <==> Sub(from, name) != Sub(to, name)
    ensures name in Modifications(from, to).sections ==>
      Modifications(from, to).sections[name]
      == if name !in to.sections then DelSec
         else if name !in from.sections then AddSec(to.sections[name])
         else ModSec(Modifications(from.sections[name], to.sections[name]))
  {}

  lemma HasSection(c: Cfg, e: Edits, name: string)
    requires AppliesTo(c, e)
    ensures name in Applied(c, e).sections <==>
      if name in e.sections then !e.sections[name].DelSec? else name in c.sections
  {}

  lemma SectionArrives(from: Cfg, to: Cfg, name: string)
    requires AppliesTo(from, Modifications(from, to))
    requires name in from.sections && name in to.sections ==>
      Apply(from.sections[name], Modifications(from.sections[name], to.sections[name])) == Some(to.sections[name])
    ensures Sub(Applied(from, Modifications(from, to)), name) == Sub(to, name)
  {
    ModifiedSection(from, to, name);
    HasSection(from, Modifications(from, to), name);
  }

  lemma OptionsArrive(from: Cfg, to: Cfg)
    requires AppliesTo(from, Modifications(from, to))
    ensures Applied(from, Modifications(from, to)).options == to.options
  {}

  /** The server's modifications `srv` leave room for the client's, `cli`: an added section must be new to
      both, a deleted one untouched, and where both went into a section the server changed no option. */
  predicate NoConflicts(srv: Edits, cli: Edits)
    decreases cli
  {
    && (forall name :: name in cli.sections && name in srv.sections ==>
      NoSectionConflict(srv.sections[name], cli.sections[name]))
    && srv.options == map[]
  }

  predicate NoSectionConflict(srv: SectionEdit, cli: SectionEdit)
    decreases cli
  {
    match cli
    case AddSec(_) => false
    case DelSec => false
    case ModSec(edits) =>
      match srv
      case ModSec(srvEdits) => NoConflicts(srvEdits, edits)
      case DelSec => NoConflicts(NOTHING, edits)
      case AddSec(_) => false
  }

  /** The client goes into no section that the server deleted. */
  predicate SparesDeleted(srv: Edits, cli: Edits)
    decreases cli
  {
    forall name :: name in cli.sections && name in srv.sections && cli.sections[name].ModSec? ==>
      SparesDeletedIn(srv.sections[name], cli.sections[name])
  }

  predicate SparesDeletedIn(srv: SectionEdit, cli: SectionEdit)
    requires cli.ModSec?
    decreases cli
  {
    match srv
    case DelSec => false
    case AddSec(_) => true
    case ModSec(edits) => SparesDeleted(edits, cli.edits)
  }

  /** The path leads to an option that the modifications set or drop, or that lies in a section they add or drop. */
  predicate Touches(e: Edits, path: seq<string>)
    decreases |path|
  {
    if path == [] then false
    else if |path| == 1 then path[0] in e.options
    else path[0] in e.sections && (e.sections[path[0]].ModSec? ==> Touches(e.sections[path[0]].edits, path[1..]))
  }

  lemma {:induction false} UntouchedPath(c: Cfg, e: Edits, path: seq<string>)
    requires AppliesTo(c, e) && !Touches(e, path)
    ensures Lookup(Applied(c, e), path) == Lookup(c, path)
    decreases |path|
  {
    if |path| > 1 && path[0] in e.sections {
      assert SectionFits(c, path[0], e.sections[path[0]]);
      UntouchedPath(c.sections[path[0]], e.sections[path[0]].edits, path[1..]);
    }
  }

  /** When the check passes, the client's modifications apply to the server's tree exactly when they spare
      what the server deleted. */
  lemma {:induction false} AppliesExactlyWhenSparing(base: Cfg, srv: Edits, cli: Edits)
    requires AppliesTo(base, srv) && AppliesTo(base, cli) && NoConflicts(srv, cli)
    ensures AppliesTo(Applied(base, srv), cli) <==> SparesDeleted(srv, cli)
    decreases base
  {
    var server := Applied(base, srv);
    assert server.options == base.options;
    forall name | name in cli.sections
      ensures SectionFits(server, name, cli.sections[name]) <==>
        (name in srv.sections && cli.sections[name].ModSec? ==> SparesDeletedIn(srv.sections[name], cli.sections[name]))
    {
      assert SectionFits(base, name, cli.sections[name]);
      if name in srv.sections {
        assert SectionFits(base, name, srv.sections[name]) && NoSectionConflict(srv.sections[name], cli.sections[name]);
        if srv.sections[name].ModSec? {
          AppliesExactlyWhenSparing(base.sections[name], srv.sections[name].edits, cli.sections[name].edits);
        }
      }
    }
  }

  lemma {:induction false} AppliesToo(base: Cfg, srv: Edits, cli: Edits)
    requires AppliesTo(base, srv) && AppliesTo(base, cli) && NoConflicts(srv, cli) && SparesDeleted(srv, cli)
    ensures AppliesTo(Applied(base, cli), srv)
    decreases base
  {
    forall name | name in srv.sections ensures SectionFits(Applied(base, cli), name, srv.sections[name]) {
      assert SectionFits(base, name, srv.sections[name]);
      if name in cli.sections {
        BothModify(base, srv, cli, name);
        AppliesToo(base.sections[name], srv.sections[name].edits, cli.sections[name].edits);
      }
    }
  }

  /** The two orders of application agree. */
  lemma {:induction false} OrdersAgree(base: Cfg, srv: Edits, cli: Edits)
    requires AppliesTo(base, srv) && AppliesTo(base, cli) && NoConflicts(srv, cli) && SparesDeleted(srv, cli)
    ensures AppliesTo(Applied(base, srv), cli) && AppliesTo(Applied(base, cli), srv)
    ensures Applied(Applied(base, srv), cli) == Applied(Applied(base, cli), srv)
    decreases base
  {
    AppliesExactlyWhenSparing(base, srv, cli);
    AppliesToo(base, srv, cli);
    SameOptions(base, srv, cli);
    forall name | name in cli.sections && name in srv.sections
      ensures cli.sections[name].ModSec? && srv.sections[name].ModSec?
    {
      BothModify(base, srv, cli, name);
    }
    SameSections(base, srv, cli);
    var one, two := Applied(Applied(base, srv), cli), Applied(Applied(base, cli), srv);
    forall name | name in one.sections ensures one.sections[name] == two.sections[name] {
      if name in cli.sections && name in srv.sections {
        BothModify(base, srv, cli, name);
        OrdersAgree(base.sections[name], srv.sections[name].edits, cli.sections[name].edits);
      }
      SameSection(base, srv, cli, name);
    }
    assert one.sections == two.sections;
  }

  lemma SameOptions(base: Cfg, srv: Edits, cli: Edits)
    requires AppliesTo(base, srv) && AppliesTo(base, cli) && NoConflicts(srv, cli)
    requires AppliesTo(Applied(base, srv), cli) && AppliesTo(Applied(base, cli), srv)
    ensures Applied(Applied(base, srv), cli).options == Applied(Applied(base, cli), srv).options
  {
    assert Applied(base, srv).options == base.options;
    assert Applied(Applied(base, cli), srv).options == Applied(base, cli).options;
  }

  ghost predicate OrdersAgreeIn(base: Cfg, srv: Edits, cli: Edits) {
    && AppliesTo(base, srv) && AppliesTo(base, cli)
    && AppliesTo(Applied(base, srv), cli) && AppliesTo(Applied(base, cli), srv)
    && Applied(Applied(base, srv), cli) == Applied(Applied(base, cli), srv)
  }

  lemma SameSection(base: Cfg, srv: Edits, cli: Edits, name: string)
    requires AppliesTo(base, srv) && AppliesTo(base, cli)
    requires AppliesTo(Applied(base, srv), cli) && AppliesTo(Applied(base, cli), srv)
    requires name in Applied(Applied(base, srv), cli).sections && name in Applied(Applied(base, cli), srv).sections
    requires name in srv.sections && name in cli.sections ==>
      && srv.sections[name].ModSec? && cli.sections[name].ModSec? && name in base.sections
      && OrdersAgreeIn(base.sections[name], srv.sections[name].edits, cli.sections[name].edits)
    ensures Applied(Applied(base, srv), cli).sections[name] == Applied(Applied(base, cli), srv).sections[name]
  {}

  lemma SameSections(base: Cfg, srv: Edits, cli: Edits)
    requires AppliesTo(base, srv) && AppliesTo(base, cli)
    requires AppliesTo(Applied(base, srv), cli) && AppliesTo(Applied(base, cli), srv)
    requires forall name :: name in cli.sections && name in srv.sections ==>
      cli.sections[name].ModSec? && srv.sections[name].ModSec?
    ensures Applied(Applied(base, srv), cli).sections.Keys == Applied(Applied(base, cli), srv).sections.Keys
  {
    forall name
      ensures name in Applied(Applied(base, srv), cli).sections <==> name in Applied(Applied(base, cli), srv).sections
    {
      HasSection(base, srv, name);
      HasSection(base, cli, name);
      HasSection(Applied(base, srv), cli, name);
      HasSection(Applied(base, cli), srv, name);
    }
  }

  /** A section both went into is one both modify, within the same conditions. */
  lemma BothModify(base: Cfg, srv: Edits, cli: Edits, name: string)
    requires AppliesTo(base, srv) && AppliesTo(base, cli) && NoConflicts(srv, cli) && SparesDeleted(srv, cli)
    requires name in cli.sections && name in srv.sections
    ensures srv.sections[name].ModSec? && cli.sections[name].ModSec? && name in base.sections
    ensures var b, s, c := base.sections[name], srv.sections[name].edits, cli.sections[name].edits;
      AppliesTo(b, s) && AppliesTo(b, c) && NoConflicts(s, c) && SparesDeleted(s, c)
  {}

  /** No path is touched by both sides. */
  lemma {:induction false} TouchedOnce(base: Cfg, srv: Edits, cli: Edits, path: seq<string>)
    requires AppliesTo(base, srv) && AppliesTo(base, cli) && NoConflicts(srv, cli) && SparesDeleted(srv, cli)
    ensures !(Touches(srv, path) && Touches(cli, path))
    decreases |path|
  {
    if |path| > 1 && path[0] in srv.sections && path[0] in cli.sections {
      BothModify(base, srv, cli, path[0]);
      TouchedOnce(base.sections[path[0]], srv.sections[path[0]].edits, cli.sections[path[0]].edits, path[1..]);
    }
  }

  /** The merged tree has the client's value on every path the client touched, the server's on every path
      the server touched, and the base's everywhere else. */
  lemma MergedValues(base: Cfg, srv: Edits, cli: Edits, path: seq<string>)
    requires AppliesTo(base, srv) && AppliesTo(base, cli) && NoConflicts(srv, cli) && SparesDeleted(srv, cli)
    ensures AppliesTo(Applied(base, srv), cli)
    ensures Lookup(Applied(Applied(base, srv), cli), path)
         == if Touches(cli, path) then Lookup(Applied(base, cli), path)
            else if Touches(srv, path) then Lookup(Applied(base, srv), path)
            else Lookup(base, path)
  {
    OrdersAgree(base, srv, cli);
    TouchedOnce(base, srv, cli, path);
    var server, client := Applied(base, srv), Applied(base, cli);
    if Touches(cli, path) {
      UntouchedPath(client, srv, path);
    } else {
      UntouchedPath(server, cli, path);
      if !Touches(srv, path) { UntouchedPath(base, srv, path); }
    }
  }

  // The automatic merge of a stale commit.

  datatype MergeResult = Merged(tree: Cfg) | Conflict | Failed

  /** What the server does with a commit made from an older tree `base`. */
  function MergeIndependentUpdates(base: Cfg, server: Cfg, client: Cfg): MergeResult {
    var toClient, toServer := Modifications(base, client), Modifications(base, server);
    if !NoConflicts(toServer, toClient) then Conflict
    else
      match Apply(server, toClient)
      case Some(tree) => Merged(tree)
      case None => Failed
  }

  /** A merge that succeeds is a three-way merge, whichever side is taken first: every option that only one
      side changed has that side's value, and no option was changed by both. */
  lemma MergeIsThreeWay(base: Cfg, server: Cfg, client: Cfg, path: seq<string>)
    requires MergeIndependentUpdates(base, server, client).Merged?
    ensures var tree := MergeIndependentUpdates(base, server, client).tree;
      && Lookup(tree, path) == (if Lookup(client, path) != Lookup(base, path) then Lookup(client, path)
        else Lookup(server, path))
      && (Lookup(server, path) != Lookup(base, path) ==> Lookup(tree, path) == Lookup(server, path))
      && Apply(client, Modifications(base, server)) == Some(tree)
  {
    var toClient, toServer := Modifications(base, client), Modifications(base, server);
    ModificationsApply(base, client);
    ModificationsApply(base, server);
    AppliesExactlyWhenSparing(base, toServer, toClient);
    OrdersAgree(base, toServer, toClient);
    MergedValues(base, toServer, toClient, path);
    TouchedOnce(base, toServer, toClient, path);
    if !Touches(toClient, path) { UntouchedPath(base, toClient, path); }
    if !Touches(toServer, path) { UntouchedPath(base, toServer, path); }
  }

  /** The merge fails without a conflict exactly when the client went into a section the server deleted,
      which the check lets pass. */
  lemma MergeFailsExactlyOnDeleted(base: Cfg, server: Cfg, client: Cfg)
    ensures MergeIndependentUpdates(base, server, client).Failed? <==>
      && NoConflicts(Modifications(base, server), Modifications(base, client))
      && !SparesDeleted(Modifications(base, server), Modifications(base, client))
  {
    ModificationsApply(base, client);
    ModificationsApply(base, server);
    if NoConflicts(Modifications(base, server), Modifications(base, client)) {
      AppliesExactlyWhenSparing(base, Modifications(base, server), Modifications(base, client));
    }
  }

  // Exactly which commits merge, read off the three trees.

  /** The client added or dropped a section of that name, and the server did not leave it as it was. */
  ghost predicate SectionClash(base: Cfg, server: Cfg, client: Cfg, name: string) {
    && (Sub(client, name).Some? <==> Sub(base, name).None?)
    && Sub(server, name) != Sub(base, name)
  }

  /** The section at the path is in all three trees, and either the server changed an option of it, while the client
      changed anything in it unless it is the top, or sections in it clash. */
  ghost predicate ConflictAt(base: Cfg, server: Cfg, client: Cfg, path: seq<string>) {
    var b, s, c := Section(base, path), Section(server, path), Section(client, path);
    && b.Some? && s.Some? && c.Some?
    && ((s.value.options != b.value.options && (path == [] || c != b))
        || exists name :: SectionClash(b.value, s.value, c.value, name))
  }

  /** The client changed anything in a section that both kept, and the server dropped it. */
  ghost predicate EntersDropped(base: Cfg, server: Cfg, client: Cfg, path: seq<string>) {
    var b, c := Section(base, path), Section(client, path);
    b.Some? && c.Some? && b != c && Section(server, path).None?
  }

  lemma ModifiedOptions(from: Cfg, to: Cfg)
    ensures Modifications(from, to).options == map[] <==> to.options == from.options
  {
    var e := Modifications(from, to).options;
    if e == map[] {
      forall name ensures name in from.options <==> name in to.options { assert name !in e; }
      forall name | name in from.options ensures from.options[name] == to.options[name] { assert name !in e; }
      assert from.options == to.options;
    }
  }

  lemma NothingConflicts(cli: Edits)
    ensures NoConflicts(NOTHING, cli)
  {}

  /** What the check asks of one section. */
  lemma ChecksSection(base: Cfg, server: Cfg, client: Cfg, name: string)
    requires Sub(server, name) != Sub(base, name) && Sub(client, name) != Sub(base, name)
    ensures NoSectionConflict(Modifications(base, server).sections[name], Modifications(base, client).sections[name])
      <==> (&& !SectionClash(base, server, client, name)
            && (name in server.sections ==>
                  NoConflicts(Modifications(base.sections[name], server.sections[name]),
                              Modifications(base.sections[name], client.sections[name]))))
  {
    ModifiedSection(base, server, name);
    ModifiedSection(base, client, name);
    if name in base.sections && name in client.sections && name !in server.sections {
      NothingConflicts(Modifications(base.sections[name], client.sections[name]));
    }
  }

  lemma StepDown(c: Cfg, name: string, path: seq<string>)
    ensures Section(c, [name] + path) == if name in c.sections then Section(c.sections[name], path) else None
  {
    assert ([name] + path)[1..] == path;
  }

  lemma {:induction false} ConflictIsFound(base: Cfg, server: Cfg, client: Cfg, path: seq<string>)
    requires ConflictAt(base, server, client, path)
    ensures !NoConflicts(Modifications(base, server), Modifications(base, client))
    decreases |path|
  {
    ModifiedOptions(base, server);
    if path == [] {
      if name :| SectionClash(base, server, client, name) {
        ChecksSection(base, server, client, name);
        ModifiedSection(base, server, name);
        ModifiedSection(base, client, name);
      }
    } else {
      var name, rest := path[0], path[1..];
      var b, s, c := base.sections[name], server.sections[name], client.sections[name];
      ConflictIsFound(b, s, c, rest);
      ConflictMeansChange(base, server, client, path);
      ChecksSection(base, server, client, name);
      ModifiedSection(base, server, name);
      ModifiedSection(base, client, name);
    }
  }

  lemma ConflictMeansChange(base: Cfg, server: Cfg, client: Cfg, path: seq<string>)
    requires ConflictAt(base, server, client, path) && path != []
    ensures Sub(server, path[0]) != Sub(base, path[0]) && Sub(client, path[0]) != Sub(base, path[0])
  {}

  lemma {:induction false} FindsConflict(base: Cfg, server: Cfg, client: Cfg) returns (path: seq<string>)
    requires !NoConflicts(Modifications(base, server), Modifications(base, client))
    ensures ConflictAt(base, server, client, path)
    decreases base
  {
    ModifiedOptions(base, server);
    path := [];
    if server.options == base.options {
      var toServer, toClient := Modifications(base, server), Modifications(base, client);
      var name :| name in toClient.sections && name in toServer.sections
        && !NoSectionConflict(toServer.sections[name], toClient.sections[name]);
      ModifiedSection(base, server, name);
      ModifiedSection(base, client, name);
      ChecksSection(base, server, client, name);
      if !SectionClash(base, server, client, name) {
        var rest := FindsConflict(base.sections[name], server.sections[name], client.sections[name]);
        StepDown(base, name, rest);
        StepDown(server, name, rest);
        StepDown(client, name, rest);
        path := [name] + rest;
      }
    }
  }

  lemma {:induction false} FindsDropped(base: Cfg, server: Cfg, client: Cfg) returns (path: seq<string>)
    requires !SparesDeleted(Modifications(base, server), Modifications(base, client))
    ensures EntersDropped(base, server, client, path)
    decreases base
  {
    var toServer, toClient := Modifications(base, server), Modifications(base, client);
    var name :| name in toClient.sections && name in toServer.sections && toClient.sections[name].ModSec?
      && !SparesDeletedIn(toServer.sections[name], toClient.sections[name]);
    ModifiedSection(base, server, name);
    ModifiedSection(base, client, name);
    var rest := [];
    if name in server.sections {
      rest := FindsDropped(base.sections[name], server.sections[name], client.sections[name]);
    }
    StepDown(base, name, rest);
    StepDown(server, name, rest);
    StepDown(client, name, rest);
    path := [name] + rest;
  }

  lemma {:induction false} DroppedIsFound(base: Cfg, server: Cfg, client: Cfg, path: seq<string>)
    requires EntersDropped(base, server, client, path)
    ensures !SparesDeleted(Modifications(base, server), Modifications(base, client))
    decreases |path|
  {
    var name, rest := path[0], path[1..];
    ModifiedSection(base, server, name);
    ModifiedSection(base, client, name);
    if name in server.sections {
      DroppedIsFound(base.sections[name], server.sections[name], client.sections[name], rest);
    }
  }

  /** Every commit made from an older tree is merged, refused as a conflict, or fails, and the trees say which: it is a
      conflict exactly when there is one at some path; otherwise it fails exactly when the client went into a section
      that the server dropped. */
  lemma MergeOutcome(base: Cfg, server: Cfg, client: Cfg)
    ensures var r := MergeIndependentUpdates(base, server, client);
      && (r.Conflict? <==> exists path :: ConflictAt(base, server, client, path))
      && (r.Failed? <==> (&& (forall path :: !ConflictAt(base, server, client, path))
                          && exists path :: EntersDropped(base, server, client, path)))
  {
    var toServer, toClient := Modifications(base, server), Modifications(base, client);
    MergeFailsExactlyOnDeleted(base, server, client);
    if path :| ConflictAt(base, server, client, path) { ConflictIsFound(base, server, client, path); }
    if !NoConflicts(toServer, toClient) { var path := FindsConflict(base, server, client); }
    if path :| EntersDropped(base, server, client, path) { DroppedIsFound(base, server, client, path); }
    if !SparesDeleted(toServer, toClient) { var path := FindsDropped(base, server, client); }
  }

  /** So changes that lie in different sections always merge, as long as the server changed no option at the top. */
  lemma SeparateChangesMerge(base: Cfg, server: Cfg, client: Cfg)
    requires server.options == base.options
    requires forall name :: Sub(server, name) == Sub(base, name) || Sub(client, name) == Sub(base, name)
    ensures MergeIndependentUpdates(base, server, client).Merged?
  {
    MergeOutcome(base, server, client);
    forall path ensures !ConflictAt(base, server, client, path) && !EntersDropped(base, server, client, path) {
      if path != [] {
        assert Sub(server, path[0]) == Sub(base, path[0]) || Sub(client, path[0]) == Sub(base, path[0]);
      }
    }
  }

  /** Such a failure: the server drops a section in which the client changes anything at all. */
  lemma DeletedSectionFails(base: Cfg, server: Cfg, client: Cfg, name: string)
    requires name in base.sections && name in client.sections && client.sections[name] != base.sections[name]
    requires server.options == base.options && server.sections == base.sections - {name}
    requires client.options == base.options && client.sections - {name} == base.sections - {name}
    ensures MergeIndependentUpdates(base, server, client).Failed?
  {
    var toServer, toClient := Modifications(base, server), Modifications(base, client);
    MergeFailsExactlyOnDeleted(base, server, client);
    OnlyDrops(base, server, name);
    OnlyModifies(base, client, name);
    assert NoSectionConflict(toServer.sections[name], toClient.sections[name]);
    assert !SparesDeletedIn(toServer.sections[name], toClient.sections[name]);
  }

  lemma OnlyDrops(base: Cfg, server: Cfg, name: string)
    requires name in base.sections && server.options == base.options && server.sections == base.sections - {name}
    ensures Modifications(base, server) == Edits(map[], map[name := DelSec])
  {}

  lemma OnlyModifies(base: Cfg, client: Cfg, name: string)
    requires name in base.sections && name in client.sections && client.sections[name] != base.sections[name]
    requires client.options == base.options && client.sections - {name} == base.sections - {name}
    ensures var e := Modifications(base, client);
      e.sections.Keys == {name} && e.sections[name] == ModSec(Modifications(base.sections[name], client.sections[name]))
  {
    forall other | other != name
      ensures other in client.sections <==> other in base.sections
      ensures other in client.sections ==> base.sections[other] == client.sections[other]
    {
      assert other in client.sections - {name} <==> other in base.sections - {name};
      if other in client.sections { assert (client.sections - {name})[other] == (base.sections - {name})[other]; }
    }
  }
}
