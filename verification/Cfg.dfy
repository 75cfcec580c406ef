/** Configuration trees: sections that hold options and further sections. */
module Cfgs {
  import opened Options

  /** Order and comments of the entries are left out. */
  datatype Cfg = Cfg(options: map<string, string>, sections: map<string, Cfg>)

  const EMPTY := Cfg(map[], map[])

  /** The option at the end of a path; a path with no part names no option. */
  function Lookup(c: Cfg, path: seq<string>): Option<string>
    decreases |path|
  {
    if path == [] then None
    else if |path| == 1 then if path[0] in c.options then Some(c.options[path[0]]) else None
    else if path[0] in c.sections then Lookup(c.sections[path[0]], path[1..]) else None
  }

  /** The section at the end of a path. */
  function Section(c: Cfg, path: seq<string>): Option<Cfg>
    decreases |path|
  {
    if path == [] then Some(c)
    else if path[0] in c.sections then Section(c.sections[path[0]], path[1..]) else None
  }

  /** Both trees in one; where they disagree on an option, `other` prevails. */
  function MergeWith(c: Cfg, other: Cfg): Cfg
  {
    Cfg(c.options + other.options,
        map name | name in c.sections.Keys + other.sections.Keys ::
          if name !in other.sections then c.sections[name]
          else if name !in c.sections then other.sections[name]
          else MergeWith(c.sections[name], other.sections[name]))
  }

  /** The option set, the sections on the way to it created where they are missing. */
  function SetOption(c: Cfg, path: seq<string>, value: string): Cfg
    requires path != []
    decreases |path|
  {
    if |path| == 1 then c.(options := c.options[path[0] := value])
    else
      var sub := if path[0] in c.sections then c.sections[path[0]] else EMPTY;
      c.(sections := c.sections[path[0] := SetOption(sub, path[1..], value)])
  }

  lemma {:induction false} LookupMerged(c: Cfg, other: Cfg, path: seq<string>)
    ensures Lookup(MergeWith(c, other), path) ==
      if Lookup(other, path).Some? then Lookup(other, path) else Lookup(c, path)
    decreases |path|
  {
    if |path| > 1 && path[0] in c.sections && path[0] in other.sections {
      LookupMerged(c.sections[path[0]], other.sections[path[0]], path[1..]);
    }
  }

  lemma {:induction false} LookupSet(c: Cfg, path: seq<string>, value: string, p: seq<string>)
    requires path != []
    ensures Lookup(SetOption(c, path, value), p) == if p == path then Some(value) else Lookup(c, p)
    decreases |path|
  {
    if |path| == 1 {
      assert path == [path[0]];
    } else if |p| > 1 && p[0] == path[0] {
      var sub := if path[0] in c.sections then c.sections[path[0]] else EMPTY;
      LookupSet(sub, path[1..], value, p[1..]);
      assert p == [p[0]] + p[1..] && path == [path[0]] + path[1..];
    }
  }

  /** The sections of a merged tree are those of either. */
  lemma {:induction false} SectionMerged(c: Cfg, other: Cfg, path: seq<string>)
    ensures Section(MergeWith(c, other), path).Some? <==> Section(c, path).Some? || Section(other, path).Some?
    decreases |path|
  {
    if path != [] && path[0] in c.sections && path[0] in other.sections {
      SectionMerged(c.sections[path[0]], other.sections[path[0]], path[1..]);
    }
  }

  /** Setting an option adds the sections above it and no others. */
  lemma {:induction false} SectionSet(c: Cfg, path: seq<string>, value: string, p: seq<string>)
    requires path != []
    ensures Section(SetOption(c, path, value), p).Some? <==> Section(c, p).Some? || (p <= path && p != path)
    decreases |path|
  {
    if p != [] && p[0] == path[0] && |path| > 1 {
      var sub := if path[0] in c.sections then c.sections[path[0]] else EMPTY;
      SectionSet(sub, path[1..], value, p[1..]);
      assert p == [p[0]] + p[1..] && path == [path[0]] + path[1..];
    }
  }

  lemma {:induction false} SetSame(c: Cfg, path: seq<string>, value: string)
    requires path != []
    ensures SetOption(c, path, value) == c <==> Lookup(c, path) == Some(value)
    decreases |path|
  {
    if |path| > 1 {
      var sub := if path[0] in c.sections then c.sections[path[0]] else EMPTY;
      SetSame(sub, path[1..], value);
      var after := SetOption(sub, path[1..], value);
      assert c.sections[path[0] := after][path[0]] == after;
      if path[0] in c.sections && after == sub { assert c.sections[path[0] := after] == c.sections; }
    } else if path[0] in c.options && c.options[path[0]] == value {
      assert c.options[path[0] := value] == c.options;
    } else {
      assert c.options[path[0] := value][path[0]] == value;
    }
  }
}
