/** One-core copies of the queues of one computing element. */
module OneCoreQueues {
  import opened Options

  datatype QueueInfo = QueueInfo(implementation: string, processors: int, rest: string)

  predicate IsMulti(info: QueueInfo) {
    (info.implementation == "ARC" || info.implementation == "HTCondorCE") && info.processors != 1
  }

  function UntilDash(s: string): (n: nat)
    ensures n <= |s|
  {
    if s == [] || s[0] == '-' then 0 else 1 + UntilDash(s[1..])
  }

  lemma {:induction false} UntilDashEnds(s: string)
    ensures '-' !in s[..UntilDash(s)] && (UntilDash(s) < |s| ==> s[UntilDash(s)] == '-')
  {
    if s != [] && s[0] != '-' {
      UntilDashEnds(s[1..]);
      assert s[..UntilDash(s)] == [s[0]] + s[1..][..UntilDash(s[1..])];
    }
  }

  function Named(first: string, middle: string, last: string): string {
    first + (['-'] + (middle + last))
  }

  /** The new name of a queue; None where the source fails, for an ARC queue without a dash. */
  function OneCoreName(name: string, implementation: string): Option<string> {
    if implementation == "HTCondorCE" then Some(name + "1core")
    else
      var n := UntilDash(name);
      if n == |name| then None
      else
        var m := UntilDash(name[n + 1..]);
        Some(Named(name[..n], name[n + 1..][..m] + "1core", name[n + 1..][m..]))
  }

  lemma {:induction false} UntilDashIs(s: string, t: string)
    requires '-' !in s && (t == [] || t[0] == '-')
    ensures UntilDash(s + t) == |s|
  {
    if s == [] {
      assert s + t == t;
    } else {
      assert s[0] in s && (s + t)[1..] == s[1..] + t;
      UntilDashIs(s[1..], t);
    }
  }

  /** A name is a first part, a dash, a middle part, and what follows from the next dash on. */
  predicate AreParts(first: string, middle: string, last: string) {
    '-' !in first && '-' !in middle && (last == [] || last[0] == '-')
  }

  lemma AtIndex(s: string, n: nat)
    requires n < |s|
    ensures s == s[..n] + ([s[n]] + s[n + 1..])
  {}

  lemma Halves(s: string, m: nat)
    requires m <= |s|
    ensures s == s[..m] + s[m..]
  {}

  lemma NamedFrom(name: string, n: nat, m: nat)
    requires n < |name| && name[n] == '-' && m <= |name| - n - 1
    ensures name == Named(name[..n], name[n + 1..][..m], name[n + 1..][m..])
  {
    AtIndex(name, n);
    Halves(name[n + 1..], m);
  }

  lemma ArcParts(name: string) returns (first: string, middle: string, last: string)
    requires OneCoreName(name, "ARC").Some?
    ensures AreParts(first, middle, last) && name == Named(first, middle, last)
    ensures OneCoreName(name, "ARC").value == Named(first, middle + "1core", last)
  {
    var n := UntilDash(name);
    var rest := name[n + 1..];
    var m := UntilDash(rest);
    first, middle, last := name[..n], rest[..m], rest[m..];
    UntilDashEnds(name);
    UntilDashEnds(rest);
    NamedFrom(name, n, m);
  }

  lemma SameParts(f: string, m: string, l: string, g: string, n: string, k: string)
    requires AreParts(f, m, l) && AreParts(g, n, k) && Named(f, m, l) == Named(g, n, k)
    ensures f == g && m == n && l == k
  {
    var name := Named(f, m, l);
    UntilDashIs(f, ['-'] + (m + l));
    UntilDashIs(g, ['-'] + (n + k));
    assert f == name[..|f|] && g == name[..|g|];
    assert name[|f| + 1..] == m + l && name[|g| + 1..] == n + k;
    UntilDashIs(m, l);
    UntilDashIs(n, k);
    assert m == (m + l)[..|m|] && n == (n + k)[..|n|];
    assert l == (m + l)[|m|..] && k == (n + k)[|n|..];
  }

  lemma SameSuffix(a: string, b: string, suffix: string)
    requires a + suffix == b + suffix
    ensures a == b
  {
    assert |a + suffix| == |b + suffix|;
    assert a == (a + suffix)[..|a|] && b == (b + suffix)[..|b|];
  }

  /** Queues of one implementation get different names. */
  lemma NamesDiffer(a: string, b: string, implementation: string)
    requires implementation == "ARC" || implementation == "HTCondorCE"
    requires OneCoreName(a, implementation).Some? && OneCoreName(a, implementation) == OneCoreName(b, implementation)
    ensures a == b
  {
    if implementation == "HTCondorCE" {
      SameSuffix(a, b, "1core");
    } else {
      var f, m, l := ArcParts(a);
      var g, n, k := ArcParts(b);
      SameParts(f, m + "1core", l, g, n + "1core", k);
      SameSuffix(m, n, "1core");
    }
  }

  // The queues of a computing element: a dictionary, which keeps the order in which its names came in.

  datatype Queue = Queue(name: string, info: QueueInfo)

  predicate Distinct(d: seq<Queue>) {
    forall i, j :: 0 <= i < j < |d| ==> d[i].name != d[j].name
  }

  function Names(d: seq<Queue>): seq<string> {
    seq(|d|, i requires 0 <= i < |d| => d[i].name)
  }

  function Get(d: seq<Queue>, name: string): Option<QueueInfo> {
    if d == [] then None else if d[0].name == name then Some(d[0].info) else Get(d[1..], name)
  }

  /** An entry keeps its place when it gets a new value; a new one comes last. */
  function Assigned(d: seq<Queue>, name: string, info: QueueInfo): seq<Queue> {
    if d == [] then [Queue(name, info)]
    else if d[0].name == name then [Queue(name, info)] + d[1..]
    else [d[0]] + Assigned(d[1..], name, info)
  }

  function Updated(d: seq<Queue>, more: seq<Queue>): seq<Queue>
    decreases |more|
  {
    if more == [] then d else Updated(Assigned(d, more[0].name, more[0].info), more[1..])
  }

  lemma {:induction false} GetAt(d: seq<Queue>, i: nat)
    requires Distinct(d) && i < |d|
    ensures Get(d, d[i].name) == Some(d[i].info)
  {
    if i > 0 {
      assert d[0].name != d[i].name && d[1..][i - 1] == d[i];
      GetAt(d[1..], i - 1);
    }
  }

  lemma {:induction false} GetIn(d: seq<Queue>, name: string)
    ensures Get(d, name).Some? <==> exists i :: 0 <= i < |d| && d[i].name == name
  {
    if d != [] {
      GetIn(d[1..], name);
      if Get(d[1..], name).Some? {
        var i :| 0 <= i < |d[1..]| && d[1..][i].name == name;
        assert d[i + 1].name == name;
      }
      if i :| 0 < i < |d| && d[i].name == name { assert d[1..][i - 1].name == name; }
    }
  }

  lemma {:induction false} AssignedIs(d: seq<Queue>, name: string, info: QueueInfo, other: string)
    ensures Get(Assigned(d, name, info), other) == if other == name then Some(info) else Get(d, other)
    ensures Names(Assigned(d, name, info)) == Names(d) + if Get(d, name).Some? then [] else [name]
  {
    if d != [] && d[0].name != name {
      var rest := Assigned(d[1..], name, info);
      AssignedIs(d[1..], name, info, other);
      NamesOf(d[0], d[1..], d);
      NamesOf(d[0], rest, Assigned(d, name, info));
    }
  }

  lemma NamesOf(q: Queue, rest: seq<Queue>, d: seq<Queue>)
    requires d == [q] + rest
    ensures Names(d) == [q.name] + Names(rest) && d[1..] == rest
  {}

  lemma AssignedDistinct(d: seq<Queue>, name: string, info: QueueInfo)
    requires Distinct(d)
    ensures Distinct(Assigned(d, name, info))
  {
    AssignedIs(d, name, info, name);
    GetIn(d, name);
    var after := Assigned(d, name, info);
    assert |Names(after)| == |after|;
    forall i, j | 0 <= i < j < |after| ensures after[i].name != after[j].name {
      assert Names(after)[i] == after[i].name && Names(after)[j] == after[j].name;
    }
  }

  lemma {:induction false} UpdatedIs(d: seq<Queue>, more: seq<Queue>, name: string)
    requires Distinct(d) && Distinct(more)
    ensures Get(Updated(d, more), name) == if Get(more, name).Some? then Get(more, name) else Get(d, name)
    ensures Distinct(Updated(d, more)) && Names(d) <= Names(Updated(d, more))
    ensures (forall i :: 0 <= i < |more| ==> Get(d, more[i].name).Some?) ==> Names(Updated(d, more)) == Names(d)
    decreases |more|
  {
    if more != [] {
      var first := Assigned(d, more[0].name, more[0].info);
      AssignedDistinct(d, more[0].name, more[0].info);
      AssignedIs(d, more[0].name, more[0].info, name);
      UpdatedIs(first, more[1..], name);
      if Get(more[1..], more[0].name).Some? {
        GetIn(more[1..], more[0].name);
        assert false;
      }
      if forall i :: 0 <= i < |more| ==> Get(d, more[i].name).Some? {
        forall i | 0 <= i < |more[1..]| ensures Get(first, more[1..][i].name).Some? {
          assert more[1..][i] == more[i + 1];
          AssignedIs(d, more[0].name, more[0].info, more[i + 1].name);
        }
      }
    }
  }

  // Expansion.

  function OneCore(info: QueueInfo): QueueInfo {
    info.(processors := 1)
  }

  /** The name of a queue's copy, which depends on the queue's own implementation. */
  function CopyName(q: Queue): Option<string> {
    if IsMulti(q.info) then OneCoreName(q.name, q.info.implementation) else None
  }

  /** Only queues of the two implementations with other than one processor are copied. A copy of the one has the suffix
      at the end of its name; one of the other has it before the second dash or at the end, and fails without a dash. */
  lemma CopyNameIs(q: Queue, first: string, middle: string, last: string)
    ensures CopyName(q).Some? ==>
      q.info.processors != 1 && (q.info.implementation == "ARC" || q.info.implementation == "HTCondorCE")
    ensures q.info.processors != 1 && q.info.implementation == "HTCondorCE" ==> CopyName(q) == Some(q.name + "1core")
    ensures q.info.processors != 1 && q.info.implementation == "ARC" ==>
      && (CopyName(q).None? <==> '-' !in q.name)
      && (AreParts(first, middle, last) && q.name == first + (['-'] + (middle + last)) ==>
            CopyName(q) == Some(first + (['-'] + ((middle + "1core") + last))))
  {
    if q.info.processors != 1 && q.info.implementation == "ARC" {
      ArcNameFails(q.name);
      if AreParts(first, middle, last) && q.name == Named(first, middle, last) {
        assert q.name[|first|] == '-';
        var f, m, l := ArcParts(q.name);
        SameParts(first, middle, last, f, m, l);
      }
    }
  }

  lemma ArcNameFails(name: string)
    ensures OneCoreName(name, "ARC").None? <==> '-' !in name
  {
    UntilDashEnds(name);
    if UntilDash(name) == |name| { assert name[..UntilDash(name)] == name; }
  }

  /** Every copy can be named. */
  predicate CanExpand(queues: seq<Queue>) {
    forall i :: 0 <= i < |queues| && IsMulti(queues[i].info) ==> CopyName(queues[i]).Some?
  }

  function WithCopy(copies: seq<Queue>, q: Queue): seq<Queue> {
    if CopyName(q).Some? then Assigned(copies, CopyName(q).value, OneCore(q.info)) else copies
  }

  /** The copies, in the order in which their names come up; of two with one name the later stays. */
  function Copies(queues: seq<Queue>): seq<Queue>
    decreases |queues|
  {
    if queues == [] then [] else WithCopy(Copies(queues[..|queues| - 1]), queues[|queues| - 1])
  }

  function Expanded(queues: seq<Queue>): seq<Queue> {
    Updated(queues, Copies(queues))
  }

  /** Raises, and changes nothing, when a name cannot be made. */
  method AddOneCoreQueues(queues: seq<Queue>) returns (raised: bool, after: seq<Queue>)
    ensures raised == !CanExpand(queues)
    ensures after == if raised then queues else Expanded(queues)
  {
    var newQueues := [];
    for i := 0 to |queues|
      invariant newQueues == Copies(queues[..i])
      invariant CanExpand(queues[..i])
    {
      assert queues[..i + 1][..i] == queues[..i] && queues[..i + 1][i] == queues[i];
      if IsMulti(queues[i].info) {
        var name := CopyName(queues[i]);
        if name.None? { return true, queues; }
        newQueues := Assigned(newQueues, name.value, OneCore(queues[i].info));
      }
    }
    assert queues[..|queues|] == queues;
    raised, after := false, Expanded(queues);
  }

  predicate CopiedTo(queues: seq<Queue>, i: nat, name: string) {
    i < |queues| && CopyName(queues[i]) == Some(name)
  }

  predicate Replaced(queues: seq<Queue>, name: string) {
    exists i :: 0 <= i < |queues| && CopiedTo(queues, i, name)
  }

  /** Queue `i` is the last one with a copy of that name. */
  predicate LastCopied(queues: seq<Queue>, i: nat, name: string) {
    CopiedTo(queues, i, name) && forall j :: i < j < |queues| ==> !CopiedTo(queues, j, name)
  }

  lemma OneMoreQueue(queues: seq<Queue>, name: string)
    requires queues != []
    ensures var n := |queues| - 1;
      && (forall i: nat :: i < n ==> (CopiedTo(queues[..n], i, name) <==> CopiedTo(queues, i, name)))
      && (Replaced(queues, name) <==> Replaced(queues[..n], name) || CopiedTo(queues, n, name))
      && (forall i: nat :: LastCopied(queues, i, name) <==>
            if CopiedTo(queues, n, name) then i == n else LastCopied(queues[..n], i, name))
  {
    var n := |queues| - 1;
    forall i: nat | i < n ensures CopiedTo(queues[..n], i, name) <==> CopiedTo(queues, i, name) {}
  }

  lemma {:induction false} CopiesAre(queues: seq<Queue>, name: string)
    ensures Distinct(Copies(queues))
    ensures Get(Copies(queues), name).Some? <==> Replaced(queues, name)
    ensures forall i: nat :: LastCopied(queues, i, name) ==> Get(Copies(queues), name) == Some(OneCore(queues[i].info))
    decreases |queues|
  {
    if queues != [] {
      var n := |queues| - 1;
      var most, last := queues[..n], queues[n];
      CopiesAre(most, name);
      OneMoreQueue(queues, name);
      if CopyName(last).Some? {
        AssignedDistinct(Copies(most), CopyName(last).value, OneCore(last.info));
        AssignedIs(Copies(most), CopyName(last).value, OneCore(last.info), name);
      }
    }
  }

  lemma {:induction false} HasLast(queues: seq<Queue>, i: nat, name: string) returns (last: nat)
    requires CopiedTo(queues, i, name)
    ensures i <= last && LastCopied(queues, last, name)
    decreases |queues| - i
  {
    if j: nat :| i < j < |queues| && CopiedTo(queues, j, name) {
      last := HasLast(queues, j, name);
    } else {
      last := i;
    }
  }

  /** Every queue keeps its place, and under each copy's name stands the copy of the last queue that gets it. */
  lemma ExpandedIs(queues: seq<Queue>, name: string)
    requires Distinct(queues)
    ensures Distinct(Expanded(queues)) && Names(queues) <= Names(Expanded(queues))
    ensures forall i: nat :: LastCopied(queues, i, name) ==>
      Get(Expanded(queues), name) == Some(QueueInfo(queues[i].info.implementation, 1, queues[i].info.rest))
    ensures !Replaced(queues, name) ==> Get(Expanded(queues), name) == Get(queues, name)
    ensures Replaced(queues, name) ==> Get(Expanded(queues), name).Some? && !IsMulti(Get(Expanded(queues), name).value)
  {
    CopiesAre(queues, name);
    UpdatedIs(queues, Copies(queues), name);
    if Replaced(queues, name) {
      var i: nat :| i < |queues| && CopiedTo(queues, i, name);
      var last := HasLast(queues, i, name);
    }
  }

  /** The queues that can be copied after an expansion are those from before that no copy has replaced. */
  lemma StillCopied(queues: seq<Queue>, i: nat, name: string)
    requires Distinct(queues)
    ensures CopiedTo(Expanded(queues), i, name) <==> CopiedTo(queues, i, name) && !Replaced(queues, queues[i].name)
    ensures CopiedTo(Expanded(queues), i, name) ==> Expanded(queues)[i] == queues[i]
  {
    var once := Expanded(queues);
    ExpandedIs(queues, name);
    PlacesStay(queues);
    if i < |once| {
      ExpandedIs(queues, once[i].name);
      GetAt(once, i);
      GetIn(queues, once[i].name);
      if i < |queues| { GetAt(queues, i); }
    }
  }

  lemma PlacesStay(queues: seq<Queue>)
    requires Distinct(queues)
    ensures |queues| <= |Expanded(queues)|
    ensures forall k :: 0 <= k < |queues| ==> Expanded(queues)[k].name == queues[k].name
  {
    var once := Expanded(queues);
    ExpandedIs(queues, "");
    assert |Names(once)| == |once| && |Names(queues)| == |queues|;
    forall k | 0 <= k < |queues| ensures once[k].name == queues[k].name {
      assert Names(once)[k] == Names(queues)[k];
    }
  }

  /** Of two queues with copies of one name, the later is replaced only where the earlier is. */
  ghost predicate LaterPrevails(queues: seq<Queue>) {
    forall i: nat, j: nat, name ::
      i < j && CopiedTo(queues, i, name) && CopiedTo(queues, j, name) && Replaced(queues, queues[j].name) ==>
        Replaced(queues, queues[i].name)
  }

  /** Two queues with copies of one name are of different implementations, so there is no third. */
  lemma TwoAtMost(queues: seq<Queue>, i: nat, j: nat, name: string)
    requires Distinct(queues) && CopiedTo(queues, i, name) && CopiedTo(queues, j, name) && i != j
    ensures queues[i].info.implementation != queues[j].info.implementation
    ensures forall k: nat :: CopiedTo(queues, k, name) ==> k == i || k == j
  {
    SameImplementation(queues, i, j, name);
    forall k: nat | CopiedTo(queues, k, name) ensures k == i || k == j {
      SameImplementation(queues, i, k, name);
      SameImplementation(queues, j, k, name);
    }
  }

  lemma SameImplementation(queues: seq<Queue>, i: nat, j: nat, name: string)
    requires Distinct(queues) && CopiedTo(queues, i, name) && CopiedTo(queues, j, name)
    ensures queues[i].info.implementation == queues[j].info.implementation ==> i == j
  {
    if queues[i].info.implementation == queues[j].info.implementation {
      NamesDiffer(queues[i].name, queues[j].name, queues[i].info.implementation);
    }
  }

  lemma {:induction false} SameDictionary(d: seq<Queue>, e: seq<Queue>)
    requires Distinct(d) && Distinct(e) && Names(d) == Names(e)
    requires forall i :: 0 <= i < |d| ==> Get(e, d[i].name) == Get(d, d[i].name)
    ensures d == e
  {
    assert |Names(d)| == |d| && |Names(e)| == |e|;
    forall i | 0 <= i < |d| ensures d[i] == e[i] {
      assert Names(d)[i] == Names(e)[i];
      GetAt(d, i);
      GetAt(e, i);
    }
  }

  lemma NamesStay(queues: seq<Queue>)
    requires Distinct(queues)
    ensures var once := Expanded(queues);
      Names(Expanded(once)) == Names(once) && Distinct(once) && Distinct(Expanded(once))
  {
    var once := Expanded(queues);
    ExpandedIs(queues, "");
    ExpandedIs(once, "");
    var more := Copies(once);
    CopiesAre(once, "");
    forall k | 0 <= k < |more| ensures Get(once, more[k].name).Some? {
      GetAt(more, k);
      CopiesAre(once, more[k].name);
      var i :| 0 <= i < |once| && CopiedTo(once, i, more[k].name);
      StillCopied(queues, i, more[k].name);
      ExpandedIs(queues, more[k].name);
    }
    UpdatedIs(once, more, "");
  }

  /** Expanding what is expanded changes nothing if and only if of any two queues with copies of one name the later is
      replaced only where the earlier is. */
  lemma ExpandedOnce(queues: seq<Queue>)
    requires Distinct(queues)
    ensures Expanded(Expanded(queues)) == Expanded(queues) <==> LaterPrevails(queues)
  {
    var once := Expanded(queues);
    NamesStay(queues);
    if LaterPrevails(queues) {
      forall k | 0 <= k < |once| ensures Get(Expanded(once), once[k].name) == Get(once, once[k].name) {
        CopyStays(queues, once[k].name);
      }
      SameDictionary(once, Expanded(once));
    } else {
      var i: nat, j: nat, name :| i < j && CopiedTo(queues, i, name) && CopiedTo(queues, j, name)
        && Replaced(queues, queues[j].name) && !Replaced(queues, queues[i].name);
      CopyChanges(queues, i, j, name);
    }
  }

  lemma CopyStays(queues: seq<Queue>, name: string)
    requires Distinct(queues) && LaterPrevails(queues)
    ensures Get(Expanded(Expanded(queues)), name) == Get(Expanded(queues), name)
  {
    var once := Expanded(queues);
    ExpandedIs(queues, name);
    ExpandedIs(once, name);
    if Replaced(once, name) {
      var k: nat :| k < |once| && CopiedTo(once, k, name);
      var i := HasLast(once, k, name);
      StillCopied(queues, i, name);
      var j := HasLast(queues, i, name);
      if i < j {
        assert !CopiedTo(once, j, name);
        StillCopied(queues, j, name);
      }
    }
  }

  lemma CopyChanges(queues: seq<Queue>, i: nat, j: nat, name: string)
    requires Distinct(queues) && i < j && CopiedTo(queues, i, name) && CopiedTo(queues, j, name)
    requires Replaced(queues, queues[j].name) && !Replaced(queues, queues[i].name)
    ensures Get(Expanded(Expanded(queues)), name) != Get(Expanded(queues), name)
  {
    var once := Expanded(queues);
    TwoAtMost(queues, i, j, name);
    assert LastCopied(queues, j, name);
    ExpandedIs(queues, name);
    StillCopied(queues, i, name);
    forall k: nat | i < k < |once| ensures !CopiedTo(once, k, name) { StillCopied(queues, k, name); }
    assert LastCopied(once, i, name);
    ExpandedIs(once, name);
  }

  /** So nothing changes where all queues with several processors are of one implementation. */
  lemma OneImplementationSettles(queues: seq<Queue>, implementation: string)
    requires Distinct(queues)
    requires forall q :: q in queues && IsMulti(q.info) ==> q.info.implementation == implementation
    ensures Expanded(Expanded(queues)) == Expanded(queues)
  {
    forall i: nat, j: nat, name | i < j && CopiedTo(queues, i, name) && CopiedTo(queues, j, name) ensures false {
      assert queues[i] in queues && queues[j] in queues;
      SameImplementation(queues, i, j, name);
    }
    ExpandedOnce(queues);
  }

  lemma ArcName(first: string, middle: string, last: string)
    requires AreParts(first, middle, last)
    ensures OneCoreName(Named(first, middle, last), "ARC") == Some(Named(first, middle + "1core", last))
  {
    var name := Named(first, middle, last);
    UntilDashIs(first, ['-'] + (middle + last));
    assert name[..|first|] == first && name[|first| + 1..] == middle + last;
    UntilDashIs(middle, last);
    assert (middle + last)[..|middle|] == middle && (middle + last)[|middle|..] == last;
  }

  function ThreeQueues(x: string, y: string, last: string, p: int, q: int, r: int, rest: string): seq<Queue> {
    [Queue(Named(x, y, last), QueueInfo("ARC", p, rest)),
     Queue(Named(x, y, last + "1core"), QueueInfo("ARC", q, rest)),
     Queue(Named(x, y + "1core", last), QueueInfo("HTCondorCE", r, rest))]
  }

  lemma MiddlesDiffer(x: string, y: string, l: string, k: string)
    requires AreParts(x, y, l) && AreParts(x, y, k)
    ensures Named(x, y, l) != Named(x, y + "1core", k)
  {
    assert |y + "1core"| == |y| + 5;
    if Named(x, y, l) == Named(x, y + "1core", k) {
      SameParts(x, y, l, x, y + "1core", k);
    }
  }

  lemma CopiesOfThree(x: string, y: string, last: string, p: int, q: int, r: int, rest: string)
    requires AreParts(x, y, last) && last != [] && p != 1 && q != 1 && r != 1
    ensures var queues := ThreeQueues(x, y, last, p, q, r, rest);
      && CopyName(queues[0]) == Some(queues[2].name)
      && CopyName(queues[1]) == CopyName(queues[2]) == Some(Named(x, y + "1core", last + "1core"))
  {
    ArcName(x, y, last);
    ArcName(x, y, last + "1core");
    assert Named(x, y + "1core", last) + "1core" == Named(x, y + "1core", last + "1core");
  }

  lemma NamesOfThree(x: string, y: string, last: string)
    requires AreParts(x, y, last) && last != []
    ensures var first, second := Named(x, y, last), Named(x, y, last + "1core");
      var third, copy := Named(x, y + "1core", last), Named(x, y + "1core", last + "1core");
      first != second && second != third && first != third && copy != second
  {
    MiddlesDiffer(x, y, last + "1core", last);
    MiddlesDiffer(x, y, last + "1core", last + "1core");
    MiddlesDiffer(x, y, last, last);
    assert |Named(x, y, last)| < |Named(x, y, last + "1core")|;
  }

  lemma NotReplaced(queues: seq<Queue>, name: string)
    requires |queues| == 3 && forall i: nat :: i < 3 ==> !CopiedTo(queues, i, name)
    ensures !Replaced(queues, name)
  {}

  lemma ThirdIsReplaced(queues: seq<Queue>, copy: string)
    requires |queues| == 3 && Distinct(queues) && forall i: nat :: i < 3 ==> !CopiedTo(queues, i, queues[1].name)
    requires CopiedTo(queues, 0, queues[2].name) && CopiedTo(queues, 1, copy) && CopiedTo(queues, 2, copy)
    ensures Expanded(Expanded(queues)) != Expanded(queues)
  {
    assert Replaced(queues, queues[2].name);
    NotReplaced(queues, queues[1].name);
    CopyChanges(queues, 1, 2, copy);
  }

  /** Of three queues the copy of the first replaces the third: the third's own copy, made by then, gives way to that
      of the second at the next expansion. */
  lemma ThreeQueuesChange(x: string, y: string, last: string, p: int, q: int, r: int, rest: string)
    requires AreParts(x, y, last) && last != [] && p != 1 && q != 1 && r != 1
    ensures var queues := ThreeQueues(x, y, last, p, q, r, rest);
      Distinct(queues) && Expanded(Expanded(queues)) != Expanded(queues)
  {
    CopiesOfThree(x, y, last, p, q, r, rest);
    NamesOfThree(x, y, last);
    ThirdIsReplaced(ThreeQueues(x, y, last, p, q, r, rest), Named(x, y + "1core", last + "1core"));
  }
}
