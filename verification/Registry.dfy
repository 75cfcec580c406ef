/** Users and groups of the registry, as an administrator's client changes them before a commit. */
module Registry {
  import opened Options
  import opened Lists

  /** The members a group's Users option lists; a group without the option has none. */
  function Members(users: Option<string>): seq<string> {
    if users.Some? then FromChar(users.value, ',') else []
  }

  /** All but the first occurrence. */
  function Less(list: seq<string>, user: string): seq<string> {
    if list == [] then []
    else if list[0] == user then list[1..]
    else [list[0]] + Less(list[1..], user)
  }

  /** How often the list names the user. */
  function Mentions(list: seq<string>, user: string): nat {
    if list == [] then 0 else (if list[0] == user then 1 else 0) + Mentions(list[1..], user)
  }

  lemma {:induction false} MentionsAre(list: seq<string>, user: string)
    ensures Mentions(list, user) == multiset(list)[user]
    ensures user in list <==> Mentions(list, user) > 0
  {
    if list != [] {
      MentionsAre(list[1..], user);
      assert list == [list[0]] + list[1..];
    }
  }

  function Others(list: seq<string>, user: string): seq<string> {
    if list == [] then []
    else (if list[0] == user then [] else [list[0]]) + Others(list[1..], user)
  }

  function Removed(users: Option<string>, user: string): Option<string> {
    if users.None? then None else Some(Glue(Less(Members(users), user)))
  }

  function Added(users: Option<string>, user: string): Option<string> {
    if users.None? || user in Members(users) then users else Some(Glue(Members(users) + [user]))
  }

  lemma {:induction false} LessIs(list: seq<string>, user: string)
    ensures Others(Less(list, user), user) == Others(list, user)
    ensures forall x :: x in Less(list, user) ==> x in list
  {
    if list != [] && list[0] != user {
      LessIs(list[1..], user);
      assert list == [list[0]] + list[1..];
      assert ([list[0]] + Less(list[1..], user))[1..] == Less(list[1..], user);
    }
  }

  lemma {:induction false} LessMentions(list: seq<string>, user: string, x: string)
    ensures Mentions(Less(list, user), x) == Mentions(list, x) - if x == user && user in list then 1 else 0
  {
    if list != [] && list[0] != user {
      LessMentions(list[1..], user, x);
      assert list == [list[0]] + list[1..];
      assert ([list[0]] + Less(list[1..], user))[1..] == Less(list[1..], user);
    }
  }

  lemma {:induction false} OthersAppended(list: seq<string>, user: string)
    ensures Others(list + [user], user) == Others(list, user)
  {
    if list == [] {
      assert list + [user] == [user] && [user][1..] == [];
    } else {
      assert (list + [user])[1..] == list[1..] + [user];
      OthersAppended(list[1..], user);
    }
  }

  /** Taking a user out of a group drops one mention, and leaves everyone else's where they were. */
  lemma RemovedIs(users: Option<string>, user: string)
    ensures users.Some? ==> Members(Removed(users, user)) == Less(Members(users), user)
    ensures Others(Members(Removed(users, user)), user) == Others(Members(users), user)
    ensures user in Members(Removed(users, user)) <==> Mentions(Members(users), user) >= 2
  {
    if users.Some? {
      var list := Members(users);
      FromCharIsClean(users.value, ',');
      LessIs(list, user);
      forall i | 0 <= i < |Less(list, user)| ensures Clean(Less(list, user)[i], ',') {
        assert Less(list, user)[i] in list;
      }
      GlueRoundTrip(Less(list, user));
      LessMentions(list, user, user);
      MentionsAre(list, user);
      MentionsAre(Less(list, user), user);
    }
  }

  lemma MembersAdded(users: Option<string>, user: string)
    requires Clean(user, ',') && users.Some? && user !in Members(users)
    ensures Members(Added(users, user)) == Members(users) + [user]
  {
    FromCharIsClean(users.value, ',');
    GlueRoundTrip(Members(users) + [user]);
  }

  lemma AddedIs(users: Option<string>, user: string)
    requires Clean(user, ',')
    ensures Others(Members(Added(users, user)), user) == Others(Members(users), user)
    ensures user in Members(Added(users, user)) <==> users.Some?
  {
    if users.Some? && user !in Members(users) {
      MembersAdded(users, user);
      OthersAppended(Members(users), user);
    }
  }

  lemma AddedMentions(users: Option<string>, user: string)
    requires Clean(user, ',') && users.Some?
    ensures Mentions(Members(Added(users, user)), user) == AtLeastOne(Mentions(Members(users), user))
  {
    MentionsAre(Members(users), user);
    if user !in Members(users) {
      MembersAdded(users, user);
      MentionsAre(Members(users) + [user], user);
    }
  }

  function AtLeastOne(n: nat): nat { if n == 0 then 1 else n }

  function OneLess(n: nat): nat { if n == 0 then 0 else n - 1 }

  /** A request may name a group more than once. */
  function AddedTimes(users: Option<string>, user: string, times: nat): Option<string> {
    if times == 0 then users else Added(AddedTimes(users, user, times - 1), user)
  }

  lemma {:induction false} AddedTimesIs(users: Option<string>, user: string, times: nat)
    ensures Clean(user, ',') && times > 0 ==> AddedTimes(users, user, times) == Added(users, user)
    ensures user in Members(users) ==> AddedTimes(users, user, times) == users
  {
    if times > 0 {
      AddedTimesIs(users, user, times - 1);
      if Clean(user, ',') { AddedIs(users, user); }
    }
  }

  /** What a change of a user's groups does to a group that the request names so often. */
  function Reassigned(users: Option<string>, user: string, times: nat): Option<string> {
    if times > 0 then AddedTimes(users, user, times)
    else if user in Members(users) then Removed(users, user)
    else users
  }

  predicate AddedAt(users: Option<string>, after: Option<string>, user: string, times: nat) {
    after == AddedTimes(users, user, times)
  }

  ghost predicate AddedFrom(first: map<string, Option<string>>, groups: map<string, Option<string>>, user: string,
                            list: seq<string>) {
    groups.Keys == first.Keys && forall g :: g in groups ==> AddedAt(first[g], groups[g], user, Mentions(list, g))
  }

  lemma AddedFromNext(first: map<string, Option<string>>, groups: map<string, Option<string>>, user: string,
                      list: seq<string>, i: nat)
    requires i < |list| && list[i] in groups && AddedFrom(first, groups, user, list[..i])
    ensures AddedFrom(first, groups[list[i] := Added(groups[list[i]], user)], user, list[..i + 1])
  {
    var after := groups[list[i] := Added(groups[list[i]], user)];
    forall g | g in after ensures AddedAt(first[g], after[g], user, Mentions(list[..i + 1], g)) {
      MentionsNext(list, i, g);
      assert AddedAt(first[g], groups[g], user, Mentions(list[..i], g));
      OnceMoreAdded(first[g], groups[g], user, Mentions(list[..i], g));
    }
  }

  lemma OnceMoreAdded(users: Option<string>, after: Option<string>, user: string, times: nat)
    requires AddedAt(users, after, user, times)
    ensures AddedAt(users, Added(after, user), user, times + 1)
  {}

  lemma NoMember(users: Option<string>, user: string)
    requires !Clean(user, ',')
    ensures user !in Members(users)
  {
    MembersAreClean(users);
  }

  lemma ReassignedIs(users: Option<string>, user: string, times: nat)
    ensures (user in Members(Reassigned(users, user, times)) <==> times > 0) <==>
      if times > 0 then Clean(user, ',') && users.Some? else Mentions(Members(users), user) <= 1
    ensures Clean(user, ',') || times == 0 ==>
      Others(Members(Reassigned(users, user, times)), user) == Others(Members(users), user)
    ensures users.Some? && times > 0 && Clean(user, ',') ==>
      Mentions(Members(Reassigned(users, user, times)), user) == AtLeastOne(Mentions(Members(users), user))
    ensures times == 0 ==>
      Mentions(Members(Reassigned(users, user, times)), user) == OneLess(Mentions(Members(users), user))
  {
    AddedTimesIs(users, user, times);
    if Clean(user, ',') && users.Some? { AddedMentions(users, user); }
    RemovedIs(users, user);
    if users.Some? { LessMentions(Members(users), user, user); }
    MentionsAre(Members(users), user);
    if Clean(user, ',') {
      AddedIs(users, user);
    } else {
      NoMember(users, user);
      NoMember(Reassigned(users, user, times), user);
    }
  }

  /** Afterwards the user is in exactly the requested groups, if and only if each of them has a Users option, no
      other group mentions the user twice, and the name can stand in a list at all; then everyone else is where they
      were. */
  lemma MembershipIsExact(before: map<string, Option<string>>, after: map<string, Option<string>>, user: string,
                          requested: seq<string>)
    requires after.Keys == before.Keys && forall g :: g in requested ==> g in before
    requires forall g :: g in before ==> after[g] == Reassigned(before[g], user, Mentions(requested, g))
    ensures (forall g :: g in after ==> (user in Members(after[g]) <==> g in requested)) <==>
      && (forall g :: g in requested ==> before[g].Some? && Clean(user, ','))
      && (forall g :: g in before && g !in requested ==> Mentions(Members(before[g]), user) <= 1)
    ensures forall g :: g in after && (Clean(user, ',') || g !in requested) ==>
      Others(Members(after[g]), user) == Others(Members(before[g]), user)
    ensures forall g :: g in requested && before[g].Some? && Clean(user, ',') ==>
      Mentions(Members(after[g]), user) == AtLeastOne(Mentions(Members(before[g]), user))
    ensures forall g :: g in after && g !in requested ==>
      Mentions(Members(after[g]), user) == OneLess(Mentions(Members(before[g]), user))
  {
    forall g | g in before
      ensures Clean(user, ',') || g !in requested ==>
        Others(Members(after[g]), user) == Others(Members(before[g]), user)
      ensures (user in Members(after[g]) <==> g in requested) <==>
        if g in requested then before[g].Some? && Clean(user, ',') else Mentions(Members(before[g]), user) <= 1
      ensures g in requested && before[g].Some? && Clean(user, ',') ==>
        Mentions(Members(after[g]), user) == AtLeastOne(Mentions(Members(before[g]), user))
      ensures g !in requested ==>
        Mentions(Members(after[g]), user) == OneLess(Mentions(Members(before[g]), user))
    {
      ReassignedIs(before[g], user, Mentions(requested, g));
      MentionsAre(requested, g);
    }
  }

  // Check and sort.

  function Registered(list: seq<string>, all: set<string>): seq<string> {
    if list == [] then []
    else (if list[0] in all then [list[0]] else []) + Registered(list[1..], all)
  }

  /** The members that are registered users; an empty option is left alone. */
  function Checked(users: Option<string>, all: set<string>): Option<string> {
    if users.None? || users.value == [] then users else Some(Glue(Registered(Members(users), all)))
  }

  function Sorted(users: Option<string>): Option<string> {
    if users.None? || users.value == [] then users else Some(Join(Sort(Members(users))))
  }

  lemma {:induction false} RegisteredIs(list: seq<string>, all: set<string>)
    ensures forall x :: x in Registered(list, all) <==> x in list && x in all
  {
    if list != [] {
      RegisteredIs(list[1..], all);
      assert list == [list[0]] + list[1..];
    }
  }

  lemma {:induction false} RegisteredMentions(list: seq<string>, all: set<string>, x: string)
    requires x in all
    ensures Mentions(Registered(list, all), x) == Mentions(list, x)
  {
    if list != [] {
      RegisteredMentions(list[1..], all, x);
      var rest := Registered(list[1..], all);
      assert ([list[0]] + rest)[1..] == rest && ([list[0]] + rest)[0] == list[0];
      assert [] + rest == rest;
    }
  }

  lemma {:induction false} AllRegistered(list: seq<string>, all: set<string>)
    requires forall x :: x in list ==> x in all
    ensures Registered(list, all) == list
  {
    if list != [] {
      AllRegistered(list[1..], all);
      assert list == [list[0]] + list[1..];
    }
  }


  lemma CheckedIs(users: Option<string>, all: set<string>)
    ensures Members(Checked(users, all)) == Registered(Members(users), all)
  {
    EmptyList();
    if users.Some? && users.value != [] {
      var list := Registered(Members(users), all);
      FromCharIsClean(users.value, ',');
      RegisteredIs(Members(users), all);
      forall i | 0 <= i < |list| ensures Clean(list[i], ',') { assert list[i] in list; }
      GlueRoundTrip(list);
    }
  }

  lemma SortedIs(users: Option<string>)
    requires users.Some? && users.value != [] ==> AllClean(Members(users), ',')
    ensures Members(Sorted(users)) == Sort(Members(users))
    ensures Sorted(users).Some? ==> Sorted(users).value == Join(Sort(Members(users)))
  {
    EmptyList();
    if users.Some? && users.value != [] {
      var list := Members(users);
      SortIsSorted(list);
      forall i | 0 <= i < |Sort(list)| ensures Clean(Sort(list)[i], ',') {
        assert Sort(list)[i] in multiset(Sort(list));
        assert Sort(list)[i] in list;
      }
      JoinRoundTrip(Sort(list));
    }
  }

  lemma MembersAreClean(users: Option<string>)
    ensures AllClean(Members(users), ',')
  {
    if users.Some? { FromCharIsClean(users.value, ','); }
  }

  /** After checking and sorting, a group lists the registered ones of its members, as often as before and in
      order. */
  lemma CheckedAndSorted(users: Option<string>, all: set<string>)
    ensures var list := Members(Sorted(Checked(users, all)));
      && IsSorted(list)
      && (forall x :: x in list <==> x in all && x in Members(users))
      && (forall x :: x in all ==> Mentions(list, x) == Mentions(Members(users), x))
  {
    var checked := Checked(users, all);
    CheckedIs(users, all);
    MembersAreClean(checked);
    SortedIs(checked);
    var list := Registered(Members(users), all);
    RegisteredIs(Members(users), all);
    SortIsSorted(list);
    forall x ensures Mentions(Sort(list), x) == Mentions(list, x) && (x in Sort(list) <==> x in list) {
      MentionsAre(Sort(list), x);
      MentionsAre(list, x);
    }
    forall x | x in all ensures Mentions(list, x) == Mentions(Members(users), x) {
      RegisteredMentions(Members(users), all, x);
    }
  }

  /** Doing it again changes nothing. */
  lemma CheckAndSortOnce(users: Option<string>, all: set<string>)
    ensures var once := Sorted(Checked(users, all)); Sorted(Checked(once, all)) == once
  {
    var once := Sorted(Checked(users, all));
    CheckedAndSorted(users, all);
    CheckedIs(users, all);
    MembersAreClean(Checked(users, all));
    SortedIs(Checked(users, all));
    var list := Members(once);
    assert once.Some? ==> once.value == Join(list);
    AllRegistered(list, all);
    SortOfSorted(list);
    CheckedIs(once, all);
    MembersAreClean(Checked(once, all));
    SortedIs(Checked(once, all));
  }

  lemma {:induction false} MentionsAppended(list: seq<string>, x: string, y: string)
    ensures Mentions(list + [x], y) == Mentions(list, y) + if x == y then 1 else 0
  {
    if list == [] {
      assert list + [x] == [x] && [x][1..] == [];
    } else {
      assert (list + [x])[1..] == list[1..] + [x];
      MentionsAppended(list[1..], x, y);
    }
  }

  lemma MentionsNext(list: seq<string>, i: nat, y: string)
    requires i < |list|
    ensures Mentions(list[..i + 1], y) == Mentions(list[..i], y) + if list[i] == y then 1 else 0
  {
    assert list[..i + 1] == list[..i] + [list[i]];
    MentionsAppended(list[..i], list[i], y);
  }

  /** The elements of a list that another one lacks, in order. */
  method NotIn(list: seq<string>, other: seq<string>) returns (rest: seq<string>)
    ensures forall g :: g in rest <==> g in list && g !in other
    ensures forall g :: Mentions(rest, g) == if g in other then 0 else Mentions(list, g)
    ensures NoDuplicates(list) ==> NoDuplicates(rest)
  {
    rest := [];
    for i := 0 to |list|
      invariant forall g :: g in rest <==> g in list[..i] && g !in other
      invariant forall g :: Mentions(rest, g) == if g in other then 0 else Mentions(list[..i], g)
      invariant NoDuplicates(list) ==> NoDuplicates(rest)
    {
      assert list[..i + 1] == list[..i] + [list[i]];
      forall g
        ensures Mentions(list[..i + 1], g) == Mentions(list[..i], g) + if list[i] == g then 1 else 0
        ensures Mentions(rest + [list[i]], g) == Mentions(rest, g) + if list[i] == g then 1 else 0
      {
        MentionsNext(list, i, g);
        MentionsAppended(rest, list[i], g);
      }
      if list[i] !in other { rest := rest + [list[i]]; }
    }
    assert list[..|list|] == list;
  }

  lemma Meets(a: set<string>, x: string, k: set<string>)
    ensures (a + {x}) * k != {} <==> a * k != {} || x in k
  {
    if x in k { assert x in (a + {x}) * k; }
    if y :| y in a * k { assert y in (a + {x}) * k; }
    if y :| y in (a + {x}) * k { assert y == x || y in a * k; }
  }

  lemma SetNext(before: map<string, string>, done: map<string, string>, p: string, value: string)
    requires p !in done
    ensures (before + done)[p := value] == before + done[p := value]
    ensures NeedsSetting(before + done, p, value) <==> NeedsSetting(before, p, value)
    ensures !NeedsSetting(before + done, p, value) ==> before + done == before + done[p := value]
  {}

  function Named(names: seq<string>): set<string> {
    set n | n in names
  }

  lemma NamedNext(names: seq<string>, i: nat)
    requires i < |names|
    ensures Named(names[..i + 1]) == Named(names[..i]) + {names[i]}
    ensures NoDuplicates(names) ==> names[i] !in Named(names[..i])
  {}

  lemma NamesNext<V>(m: map<string, V>, names: seq<string>, i: nat)
    requires i < |names|
    ensures m - Named(names[..i + 1])
         == if names[i] in m then m - Named(names[..i]) - {names[i]} else m - Named(names[..i])
    ensures Named(names[..i + 1]) * m.Keys != {} <==> Named(names[..i]) * m.Keys != {} || names[i] in m
  {
    NamedNext(names, i);
    Meets(Named(names[..i]), names[i], m.Keys);
  }

  lemma DroppedAllNext(users: Option<string>, names: seq<string>, i: nat, all: set<string>)
    requires i < |names|
    ensures var before := DroppedAll(users, names[..i], all);
      DroppedAll(users, names[..i + 1], all) == if names[i] in all then Dropped(before, names[i]) else before
  {
    assert names[..i + 1][..i] == names[..i] && |names[..i + 1]| == i + 1;
  }

  /** A property is set when it is missing, empty or different. */
  predicate NeedsSetting(before: map<string, string>, p: string, value: string) {
    p !in before || before[p] == [] || before[p] != value
  }

  predicate AnyNeedsSetting(before: map<string, string>, properties: map<string, string>) {
    exists p :: p in properties && NeedsSetting(before, p, properties[p])
  }

  lemma NeedsOneMore(before: map<string, string>, done: map<string, string>, p: string, value: string)
    requires p !in done
    ensures AnyNeedsSetting(before, done[p := value])
      <==> AnyNeedsSetting(before, done) || NeedsSetting(before, p, value)
  {
    var after := done[p := value];
    assert after[p] == value;
    if q :| q in done && NeedsSetting(before, q, done[q]) { assert q in after && after[q] == done[q]; }
  }

  /** The user joins or leaves some group. */
  ghost predicate Moves(groups: map<string, Option<string>>, user: string, requested: seq<string>) {
    exists g :: g in groups && (g in requested <==> user !in Members(groups[g]))
  }

  lemma MovesBy(groups: map<string, Option<string>>, user: string, requested: seq<string>, previous: seq<string>,
                deleteFrom: seq<string>, addTo: seq<string>)
    requires forall g :: g in requested ==> g in groups
    requires forall g :: g in previous <==> g in groups && user in Members(groups[g])
    requires forall g :: g in deleteFrom <==> g in previous && g !in requested
    requires forall g :: g in addTo <==> g in requested && g !in previous
    ensures Moves(groups, user, requested) <==> deleteFrom != [] || addTo != []
  {
    if deleteFrom != [] || addTo != [] {
      var g := if deleteFrom != [] then deleteFrom[0] else addTo[0];
      assert deleteFrom != [] ==> g in deleteFrom;
      assert deleteFrom == [] ==> g in addTo;
      assert g in groups && (g in requested <==> g !in previous);
    }
    if Moves(groups, user, requested) {
      var g :| g in groups && (g in requested <==> user !in Members(groups[g]));
      assert g in deleteFrom || g in addTo;
    }
  }

  datatype Content = Content(users: map<string, map<string, string>>, groups: map<string, Option<string>>,
                             modified: bool)

  /** A user who is not registered yet joins the requested groups, provided that the request says who they are and names
      known groups; otherwise nothing happens. */
  ghost predicate Joins(before: Content, after: Content, user: string, properties: map<string, string>,
                        requested: Option<seq<string>>, done: bool)
  {
    && (done <==>
          && "DN" in properties && requested.Some? && user !in before.users
          && forall g :: g in requested.value ==> g in before.groups)
    && (!done ==> after == before)
    && (done ==>
          && after.modified && after.users == before.users[user := properties]
          && after.groups.Keys == before.groups.Keys
          && (forall g :: g in after.groups ==>
                after.groups[g] == AddedTimes(before.groups[g], user, Mentions(requested.value, g))))
  }

  /** A registered user gets the properties, whatever becomes of the groups. These change exactly as requested if all of
      them are known, and not at all if none are given; and the change is to be committed exactly if there is one. */
  ghost predicate Changes(before: Content, after: Content, user: string, properties: map<string, string>,
                          requested: Option<seq<string>>, done: bool)
    requires user in before.users
  {
    var known := requested.Some? ==> forall g :: g in requested.value ==> g in before.groups;
    && after.users == before.users[user := before.users[user] + properties]
    && after.groups.Keys == before.groups.Keys
    && (requested.None? || !known ==> after.groups == before.groups)
    && (requested.Some? && known ==>
          forall g :: g in after.groups ==>
            after.groups[g] == Reassigned(before.groups[g], user, Mentions(requested.value, g)))
    && (done <==>
          && known
          && (AnyNeedsSetting(before.users[user], properties)
              || (requested.Some? && Moves(before.groups, user, requested.value))))
    && (after.modified <==> before.modified || done)
  }

  /** A request that is answered with no change, all its groups being known, has changed nothing. */
  lemma NothingToChange(before: Content, after: Content, user: string, properties: map<string, string>,
                        requested: Option<seq<string>>)
    requires user in before.users && Changes(before, after, user, properties, requested, false)
    requires requested.Some? ==> forall g :: g in requested.value ==> g in before.groups
    ensures after == before
  {
    var own := before.users[user];
    assert own + properties == own by {
      forall p | p in properties ensures p in own && own[p] == properties[p] {
        assert !NeedsSetting(own, p, properties[p]);
      }
    }
    assert before.users[user := own] == before.users;
    if requested.Some? {
      forall g | g in before.groups ensures after.groups[g] == before.groups[g] {
        AddedTimesIs(before.groups[g], user, Mentions(requested.value, g));
        MentionsAre(requested.value, g);
      }
      assert after.groups == before.groups;
    }
  }

  method UpdatedProperties(before: map<string, string>, properties: map<string, string>)
    returns (after: map<string, string>, modified: bool)
    ensures after == before + properties
    ensures modified <==> AnyNeedsSetting(before, properties)
  {
    after, modified := before, false;
    var todo := properties.Keys;
    ghost var done := map[];
    assert before + done == before;
    while todo != {}
      invariant todo <= properties.Keys && done.Keys == properties.Keys - todo
      invariant forall p :: p in done ==> done[p] == properties[p]
      invariant after == before + done
      invariant modified <==> AnyNeedsSetting(before, done)
      decreases |todo|
    {
      var p :| p in todo;
      SetNext(before, done, p, properties[p]);
      NeedsOneMore(before, done, p, properties[p]);
      if NeedsSetting(after, p, properties[p]) {
        after := after[p := properties[p]];
        modified := true;
      }
      done := done[p := properties[p]];
      todo := todo - {p};
    }
    assert done == properties;
  }

  class CSAPI {
    /** Each user's properties, each group's Users option. */
    var users: map<string, map<string, string>>
    var groups: map<string, Option<string>>
    var csModified: bool

    constructor (users: map<string, map<string, string>>, groups: map<string, Option<string>>)
      ensures this.users == users && this.groups == groups && !csModified
    {
      this.users, this.groups, csModified := users, groups, false;
    }

    /** The groups that mention a user, in any order. */
    method GroupsOf(user: string) returns (found: seq<string>)
      ensures NoDuplicates(found) && forall g :: g in found <==> g in groups && user in Members(groups[g])
    {
      found := [];
      var todo := groups.Keys;
      while todo != {}
        invariant todo <= groups.Keys && NoDuplicates(found)
        invariant forall g :: g in found <==> g in groups && g !in todo && user in Members(groups[g])
        decreases |todo|
      {
        var g :| g in todo;
        if user in Members(groups[g]) { found := found + [g]; }
        todo := todo - {g};
      }
    }

    /** Asking for the place of a user who is not there raises. */
    method RemoveUserFromGroup(group: string, user: string) returns (raised: bool)
      requires group in groups
      modifies `groups
      ensures raised <==> old(groups)[group].Some? && user !in Members(old(groups)[group])
      ensures groups == if raised then old(groups) else old(groups)[group := Removed(old(groups)[group], user)]
    {
      raised := false;
      var users := groups[group];
      if users.Some? {
        var list := FromChar(users.value, ',');
        if user !in list { return true; }
        groups := groups[group := Some(Glue(Less(list, user)))];
      }
      assert groups == old(groups)[group := Removed(old(groups)[group], user)];
    }

    method AddUserToGroup(group: string, user: string)
      requires group in groups
      modifies `groups
      ensures groups == old(groups)[group := Added(old(groups)[group], user)]
    {
      var users := groups[group];
      if users.Some? {
        var list := FromChar(users.value, ',');
        if user !in list { groups := groups[group := Some(Glue(list + [user]))]; }
      }
      assert groups == old(groups)[group := Added(old(groups)[group], user)];
    }

    method SetProperties(user: string, properties: map<string, string>) returns (modified: bool)
      requires user in users
      modifies `users
      ensures users == old(users)[user := old(users)[user] + properties]
      ensures modified <==> AnyNeedsSetting(old(users)[user], properties)
    {
      var updated;
      updated, modified := UpdatedProperties(users[user], properties);
      assert users[user := users[user]] == users;
      users := users[user := updated];
    }

    /** The change of groups in ModifyUser. */
    method ChangeGroups(user: string, requested: seq<string>) returns (modified: bool)
      requires forall g :: g in requested ==> g in groups
      modifies `groups
      ensures groups.Keys == old(groups).Keys
      ensures forall g :: g in groups ==> groups[g] == Reassigned(old(groups)[g], user, Mentions(requested, g))
      ensures modified <==> Moves(old(groups), user, requested)
    {
      var previous := GroupsOf(user);
      var deleteFrom := NotIn(previous, requested);
      var addTo := NotIn(requested, previous);
      modified := deleteFrom != [] || addTo != [];
      MovesBy(groups, user, requested, previous, deleteFrom, addTo);
      var raised := RemoveFromAll(deleteFrom, user);
      ghost var between := groups;
      AddToAll(addTo, user);
      forall g | g in groups ensures groups[g] == Reassigned(old(groups)[g], user, Mentions(requested, g)) {
        MentionsAre(requested, g);
        AddedTimesIs(old(groups)[g], user, Mentions(requested, g));
        assert between[g] == if g in deleteFrom then Removed(old(groups)[g], user) else old(groups)[g];
      }
    }

    /** Raises at the first group that no longer names the user. */
    method RemoveFromAll(list: seq<string>, user: string) returns (raised: bool)
      requires NoDuplicates(list) && forall g :: g in list ==> g in groups && groups[g].Some?
      modifies `groups
      ensures groups.Keys == old(groups).Keys
      ensures raised <==> exists g :: g in list && user !in Members(old(groups)[g])
      ensures forall g :: g in groups ==> groups[g] == old(groups)[g] || groups[g] == Dropped(old(groups)[g], user)
      ensures !raised ==> forall g :: g in groups ==>
        groups[g] == if g in list then Removed(old(groups)[g], user) else old(groups)[g]
    {
      raised := false;
      for i := 0 to |list|
        invariant groups.Keys == old(groups).Keys && !raised
        invariant forall j :: 0 <= j < i ==> user in Members(old(groups)[list[j]])
        invariant forall g :: g in groups ==>
          groups[g] == if g in Named(list[..i]) then Removed(old(groups)[g], user) else old(groups)[g]
      {
        NamedNext(list, i);
        raised := RemoveUserFromGroup(list[i], user);
        if raised { return; }
      }
      assert list[..|list|] == list;
    }

    method AddToAll(list: seq<string>, user: string)
      requires forall g :: g in list ==> g in groups
      modifies `groups
      ensures AddedFrom(old(groups), groups, user, list)
    {
      for i := 0 to |list|
        invariant AddedFrom(old(groups), groups, user, list[..i])
      {
        AddedFromNext(old(groups), groups, user, list, i);
        AddUserToGroup(list[i], user);
      }
      assert list[..|list|] == list;
    }

    method AllKnown(requested: seq<string>) returns (known: bool)
      ensures known == forall g :: g in requested ==> g in groups
    {
      known := true;
      for i := 0 to |requested|
        invariant known == forall j :: 0 <= j < i ==> requested[j] in groups
      {
        if requested[i] !in groups { known := false; }
      }
    }

    ghost function Contents(): Content
      reads this
    {
      Content(users, groups, csModified)
    }

    method AddUser(user: string, properties: map<string, string>, requested: Option<seq<string>>) returns (done: bool)
      modifies this
      ensures Joins(old(Contents()), Contents(), user, properties, requested, done)
    {
      if "DN" !in properties || requested.None? || user in users { return false; }
      done := AllKnown(requested.value);
      if !done { return; }
      users := users[user := properties];
      AddToAll(requested.value, user);
      csModified := true;
    }

    /** Properties first, then groups: a request for an unknown group has set the properties when it fails, and
        leaves them unmarked for the commit. */
    method ModifyUser(user: string, properties: map<string, string>, requested: Option<seq<string>>, create: bool)
      returns (done: bool)
      modifies this
      ensures user in old(users) ==> Changes(old(Contents()), Contents(), user, properties, requested, done)
      ensures user !in old(users) && create ==>
        Joins(old(Contents()), Contents(), user, properties, requested, done)
      ensures user !in old(users) && !create ==> !done && Contents() == old(Contents())
    {
      if user !in users {
        if !create { return false; }
        done := AddUser(user, properties, requested);
        return;
      }
      var modified := SetProperties(user, properties);
      if requested.Some? {
        var known := AllKnown(requested.value);
        if !known { return false; }
        var moved := ChangeGroups(user, requested.value);
        modified := modified || moved;
      }
      if modified { csModified := true; }
      done := modified;
    }

    /** The groups of the named users that are registered. */
    method DescribeUsers(names: seq<string>) returns (data: map<string, seq<string>>)
      ensures data.Keys == Named(names) * users.Keys
      ensures forall n :: n in data ==> Describes(groups, n, data[n])
    {
      data := map[];
      for i := 0 to |names|
        invariant data.Keys == Named(names[..i]) * users.Keys
        invariant forall n :: n in data ==> Describes(groups, n, data[n])
      {
        NamedNext(names, i);
        if names[i] in users {
          var found := GroupsOf(names[i]);
          data := data[names[i] := found];
        }
      }
      assert names[..|names|] == names;
    }

    /** Deletes each user and, from every group described before, one mention for each time the user is named.
        Raises exactly if some group runs out of mentions; then the names before `upTo` are done. */
    method DeleteUsers(names: seq<string>) returns (raised: bool, ghost upTo: nat)
      modifies this
      ensures raised <==> !Lasts(old(groups), old(users).Keys, names)
      ensures upTo <= |names| && (raised <==> upTo < |names|)
      ensures users == old(users) - Named(names[..upTo])
      ensures csModified == (old(csModified) || Named(names[..upTo]) * old(users).Keys != {})
      ensures if raised then PartlyDropped(old(groups), groups, names, upTo, old(users).Keys)
              else DroppedFrom(old(groups), groups, names, old(users).Keys)
    {
      raised, upTo := false, |names|;
      var data := DescribeUsers(names);
      ghost var first, all := groups, users.Keys;
      for i := 0 to |names|
        invariant users == old(users) - Named(names[..i]) && Lasts(first, all, names[..i])
        invariant DroppedFrom(first, groups, names[..i], all)
        invariant csModified == (old(csModified) || Named(names[..i]) * all != {})
      {
        NamesNext(old(users), names, i);
        raised := DeleteDescribed(names, i, data, first, all);
        if raised {
          upTo := i;
          return;
        }
      }
      assert names[..|names|] == names;
    }

    /** One round of the loop. */
    method DeleteDescribed(names: seq<string>, i: nat, data: map<string, seq<string>>,
                           ghost first: map<string, Option<string>>, ghost all: set<string>)
      returns (raised: bool)
      requires i < |names| && Lasts(first, all, names[..i]) && DroppedFrom(first, groups, names[..i], all)
      requires names[i] in data <==> names[i] in all
      requires names[i] in data ==> Describes(first, names[i], data[names[i]])
      modifies this
      ensures raised ==> !Lasts(first, all, names) && PartlyDropped(first, groups, names, i, all)
      ensures !raised ==> Lasts(first, all, names[..i + 1]) && DroppedFrom(first, groups, names[..i + 1], all)
      ensures users == if raised || names[i] !in all then old(users) else old(users) - {names[i]}
      ensures csModified == (old(csModified) || (!raised && names[i] in all))
    {
      raised := false;
      if names[i] in data {
        ghost var before := groups;
        FoundHaveLists(first, before, names[..i], all, names[i], data[names[i]]);
        raised := DeleteUser(names[i], data[names[i]]);
        DeletedNext(first, before, groups, names, i, all, data[names[i]], raised);
      } else {
        NotRegistered(first, groups, names, i, all);
      }
    }

    method DeleteUser(name: string, found: seq<string>) returns (raised: bool)
      requires NoDuplicates(found) && forall g :: g in found ==> g in groups && groups[g].Some?
      modifies this
      ensures groups.Keys == old(groups).Keys
      ensures raised <==> exists g :: g in found && name !in Members(old(groups)[g])
      ensures users == (if raised then old(users) else old(users) - {name})
        && csModified == (old(csModified) || !raised)
      ensures forall g :: g in groups ==> groups[g] == old(groups)[g] || groups[g] == Dropped(old(groups)[g], name)
      ensures !raised ==> forall g :: g in groups ==>
        groups[g] == if g in found then Dropped(old(groups)[g], name) else old(groups)[g]
    {
      raised := RemoveFromAll(found, name);
      if !raised { users, csModified := users - {name}, true; }
    }

    /** What a commit does before it sends the tree. */
    method CheckAndSort()
      modifies `groups
      ensures groups.Keys == old(groups).Keys
      ensures forall g :: g in groups ==> groups[g] == Sorted(Checked(old(groups)[g], users.Keys))
    {
      CheckForUnexistantUsersInGroups();
      SortUsersAndGroups();
    }

    method CheckForUnexistantUsersInGroups()
      modifies `groups
      ensures groups.Keys == old(groups).Keys
      ensures forall g :: g in groups ==> groups[g] == Checked(old(groups)[g], users.Keys)
    {
      var todo := groups.Keys;
      while todo != {}
        invariant groups.Keys == old(groups).Keys && todo <= groups.Keys
        invariant forall g :: g in groups ==>
          groups[g] == if g in todo then old(groups)[g] else Checked(old(groups)[g], users.Keys)
        decreases |todo|
      {
        var g :| g in todo;
        if groups[g].Some? && groups[g].value != [] {
          var list := FromChar(groups[g].value, ',');
          var filtered := Filter(list);
          groups := groups[g := Some(Glue(filtered))];
        }
        todo := todo - {g};
      }
    }

    method Filter(list: seq<string>) returns (filtered: seq<string>)
      ensures filtered == Registered(list, users.Keys)
    {
      filtered := [];
      for i := 0 to |list|
        invariant filtered == Registered(list[..i], users.Keys)
      {
        RegisteredAppended(list[..i], list[i], users.Keys);
        assert list[..i + 1] == list[..i] + [list[i]];
        if list[i] in users { filtered := filtered + [list[i]]; }
      }
      assert list[..|list|] == list;
    }

    method SortUsersAndGroups()
      modifies `groups
      ensures groups.Keys == old(groups).Keys
      ensures forall g :: g in groups ==> groups[g] == Sorted(old(groups)[g])
    {
      var todo := groups.Keys;
      while todo != {}
        invariant groups.Keys == old(groups).Keys && todo <= groups.Keys
        invariant forall g :: g in groups ==> groups[g] == if g in todo then old(groups)[g] else Sorted(old(groups)[g])
        decreases |todo|
      {
        var g :| g in todo;
        if groups[g].Some? && groups[g].value != [] {
          var sorted := Join(Sort(FromChar(groups[g].value, ',')));
          if groups[g].value != sorted { groups := groups[g := Some(sorted)]; }
        }
        todo := todo - {g};
      }
    }
  }

  lemma {:induction false} RegisteredAppended(list: seq<string>, x: string, all: set<string>)
    ensures Registered(list + [x], all) == Registered(list, all) + if x in all then [x] else []
  {
    if list == [] {
      assert list + [x] == [x] && [x][1..] == [];
    } else {
      assert (list + [x])[1..] == list[1..] + [x];
      RegisteredAppended(list[1..], x, all);
    }
  }

  function Dropped(users: Option<string>, name: string): Option<string> {
    if name in Members(users) then Removed(users, name) else users
  }

  /** One mention of each of the names that are registered is dropped. */
  function DroppedAll(users: Option<string>, names: seq<string>, all: set<string>): Option<string> {
    if names == [] then users
    else
      var before, name := DroppedAll(users, names[..|names| - 1], all), names[|names| - 1];
      if name in all then Dropped(before, name) else before
  }

  lemma DroppedLeaves(users: Option<string>, name: string, x: string)
    ensures Mentions(Members(Dropped(users, name)), x)
         == Mentions(Members(users), x) - if x == name && x in Members(users) then 1 else 0
  {
    RemovedIs(users, name);
    LessMentions(Members(users), name, x);
  }

  /** Each time a registered user is named costs a mention, as long as there is one. */
  lemma {:induction false} DroppedAllLeaves(users: Option<string>, names: seq<string>, all: set<string>, x: string)
    ensures var n, m := Mentions(Members(users), x), if x in all then Mentions(names, x) else 0;
      Mentions(Members(DroppedAll(users, names, all)), x) == if m < n then n - m else 0
    decreases |names|
  {
    if names != [] {
      var last := |names| - 1;
      DroppedAllLeaves(users, names[..last], all, x);
      assert names[..last + 1] == names;
      MentionsNext(names, last, x);
      OneMoreDropped(DroppedAll(users, names[..last], all), names[last], all, x);
      MentionsAre(Members(DroppedAll(users, names[..last], all)), x);
    }
  }

  lemma OneMoreDropped(before: Option<string>, name: string, all: set<string>, x: string)
    ensures Mentions(Members(if name in all then Dropped(before, name) else before), x) ==
      Mentions(Members(before), x) - if x == name && x in all && x in Members(before) then 1 else 0
  {
    if name in all { DroppedLeaves(before, name, x); }
  }

  /** Deleting leaves a trace of a registered user exactly where a group mentions it more often than it is named. */
  lemma NoTraceIsLeft(users: Option<string>, names: seq<string>, all: set<string>, x: string)
    requires x in all
    ensures x in Members(DroppedAll(users, names, all)) <==> Mentions(Members(users), x) > Mentions(names, x)
  {
    DroppedAllLeaves(users, names, all, x);
    MentionsAre(Members(DroppedAll(users, names, all)), x);
  }

  // What running out of mentions means.

  ghost predicate Describes(groups: map<string, Option<string>>, user: string, found: seq<string>) {
    NoDuplicates(found) && forall g :: g in found <==> g in groups && user in Members(groups[g])
  }

  predicate Suffices(users: Option<string>, names: seq<string>, n: string) {
    n in Members(users) ==> Mentions(names, n) <= Mentions(Members(users), n)
  }

  /** No group that mentions a registered user does so less often than the user is named. */
  ghost predicate Lasts(groups: map<string, Option<string>>, all: set<string>, names: seq<string>) {
    forall n, g :: n in all && g in groups ==> Suffices(groups[g], names, n)
  }

  ghost predicate DroppedFrom(first: map<string, Option<string>>, groups: map<string, Option<string>>,
                              names: seq<string>, all: set<string>) {
    groups.Keys == first.Keys && forall g :: g in groups ==> groups[g] == DroppedAll(first[g], names, all)
  }

  lemma {:induction false} MentionsGrow(names: seq<string>, i: nat, n: string)
    requires i <= |names|
    ensures Mentions(names[..i], n) <= Mentions(names, n)
    decreases |names| - i
  {
    if i < |names| {
      MentionsNext(names, i, n);
      MentionsGrow(names, i + 1, n);
    } else {
      assert names[..i] == names;
    }
  }

  lemma {:induction false} StaysSome(users: Option<string>, names: seq<string>, all: set<string>)
    ensures DroppedAll(users, names, all).Some? == users.Some?
    decreases |names|
  {
    if names != [] { StaysSome(users, names[..|names| - 1], all); }
  }

  lemma FoundHaveLists(first: map<string, Option<string>>, groups: map<string, Option<string>>, names: seq<string>,
                       all: set<string>, name: string, found: seq<string>)
    requires DroppedFrom(first, groups, names, all) && Describes(first, name, found)
    ensures forall g :: g in found ==> g in groups && groups[g].Some?
  {
    forall g | g in found ensures groups[g].Some? { StaysSome(first[g], names, all); }
  }

  /** The next deletion raises exactly if some group has no mention left for it. */
  lemma RunsOutNow(first: map<string, Option<string>>, groups: map<string, Option<string>>, names: seq<string>, i: nat,
                   all: set<string>, found: seq<string>)
    requires i < |names| && names[i] in all && DroppedFrom(first, groups, names[..i], all)
    requires Describes(first, names[i], found) && Lasts(first, all, names[..i])
    ensures (exists g :: g in found && names[i] !in Members(groups[g])) <==> !Lasts(first, all, names[..i + 1])
    ensures !Lasts(first, all, names[..i + 1]) ==> !Lasts(first, all, names)
  {
    forall g | g in first
      ensures (g in found && names[i] !in Members(groups[g])) <==> !Suffices(first[g], names[..i + 1], names[i])
      ensures forall n :: n in all && n != names[i] ==> Suffices(first[g], names[..i + 1], n)
    {
      NoTraceIsLeft(first[g], names[..i], all, names[i]);
      MentionsNext(names, i, names[i]);
      forall n | n in all && n != names[i] ensures Suffices(first[g], names[..i + 1], n) {
        assert Suffices(first[g], names[..i], n);
        MentionsNext(names, i, n);
      }
    }
    if n, g :| n in all && g in first && !Suffices(first[g], names[..i + 1], n) {
      MentionsGrow(names, i + 1, n);
      assert !Suffices(first[g], names, n);
    }
  }

  /** The names before `i` are done, and in some groups the next one too. */
  ghost predicate PartlyDropped(first: map<string, Option<string>>, groups: map<string, Option<string>>,
                                names: seq<string>, i: nat, all: set<string>)
    requires i < |names|
  {
    groups.Keys == first.Keys && forall g :: g in groups ==>
      groups[g] == DroppedAll(first[g], names[..i], all) || groups[g] == DroppedAll(first[g], names[..i + 1], all)
  }

  lemma DeletedNext(first: map<string, Option<string>>, before: map<string, Option<string>>,
                    groups: map<string, Option<string>>, names: seq<string>, i: nat, all: set<string>,
                    found: seq<string>, raised: bool)
    requires i < |names| && names[i] in all && DroppedFrom(first, before, names[..i], all) && groups.Keys == first.Keys
    requires Describes(first, names[i], found) && Lasts(first, all, names[..i])
    requires raised <==> exists g :: g in found && names[i] !in Members(before[g])
    requires forall g :: g in groups ==> groups[g] == before[g] || groups[g] == Dropped(before[g], names[i])
    requires !raised ==> forall g :: g in groups ==>
      groups[g] == if g in found then Dropped(before[g], names[i]) else before[g]
    ensures raised ==> !Lasts(first, all, names) && PartlyDropped(first, groups, names, i, all)
    ensures !raised ==> Lasts(first, all, names[..i + 1]) && DroppedFrom(first, groups, names[..i + 1], all)
  {
    RunsOutNow(first, before, names, i, all, found);
    forall g | g in groups
      ensures Dropped(before[g], names[i]) == DroppedAll(first[g], names[..i + 1], all)
      ensures g !in found ==> Dropped(before[g], names[i]) == before[g]
    {
      DroppedAllNext(first[g], names, i, all);
      NoTraceIsLeft(first[g], names[..i], all, names[i]);
      MentionsAre(Members(first[g]), names[i]);
    }
  }

  lemma NotRegistered(first: map<string, Option<string>>, groups: map<string, Option<string>>, names: seq<string>,
                      i: nat, all: set<string>)
    requires i < |names| && names[i] !in all && DroppedFrom(first, groups, names[..i], all)
      && Lasts(first, all, names[..i])
    ensures DroppedFrom(first, groups, names[..i + 1], all) && Lasts(first, all, names[..i + 1])
  {
    forall g | g in groups ensures groups[g] == DroppedAll(first[g], names[..i + 1], all) {
      DroppedAllNext(first[g], names, i, all);
    }
    forall n, g | n in all && g in first ensures Suffices(first[g], names[..i + 1], n) {
      assert Suffices(first[g], names[..i], n);
      MentionsNext(names, i, n);
    }
  }
}
