/** Positional arguments of a command: which may be registered, and how those given are shared out among them. */
module CommandArguments {
  import opened Lists

  /** One text, several texts for one argument, or a list argument whose first text names it. */
  datatype Description = Single(text: string) | Alternatives(texts: seq<string>) | ListOf(texts: seq<string>)

  datatype Value = Nothing | One(text: string) | Many(texts: seq<string>)

  /** `gathers` is what the marking says: whether the argument is a list. */
  datatype Argument = Argument(marking: string, gathers: bool, mandatory: bool, values: seq<string>, default: Value)

  predicate IsWordChar(c: char) {
    'a' <= c <= 'z' || 'A' <= c <= 'Z' || '0' <= c <= '9' || c == '_'
  }

  /** Length of the word that the text begins with. */
  function WordLength(s: string): (n: nat)
    ensures n <= |s|
  {
    if s != [] && IsWordChar(s[0]) then 1 + WordLength(s[1..]) else 0
  }

  lemma {:induction false} WordLengthEnds(s: string)
    ensures forall i :: 0 <= i < WordLength(s) ==> IsWordChar(s[i])
    ensures WordLength(s) < |s| ==> !IsWordChar(s[WordLength(s)])
  {
    if s != [] && IsWordChar(s[0]) {
      WordLengthEnds(s[1..]);
      forall i | 0 < i < WordLength(s) ensures IsWordChar(s[i]) { assert s[i] == s[1..][i - 1]; }
    }
  }

  /** The text begins with a blank and a word in brackets. */
  predicate IsBracketed(s: string) {
    " [" <= s && 0 < WordLength(s[2..]) < |s| - 2 && s[2 + WordLength(s[2..])] == ']'
  }

  /** The marking begins with a word, a blank, and a word in brackets. */
  predicate IsList(marking: string) {
    0 < WordLength(marking) && IsBracketed(marking[WordLength(marking)..])
  }

  function Alternated(names: seq<string>): string {
    if names == [] then []
    else if |names| == 1 then names[0]
    else names[0] + "|" + Alternated(names[1..])
  }

  /** The names stand between bars, in order. */
  lemma {:induction false} AlternatedIs(names: seq<string>)
    requires names != [] && forall name :: name in names ==> '|' !in name
    ensures Split(Alternated(names), '|') == names
    decreases |names|
  {
    assert names[0] in names;
    if |names| == 1 {
      SplitWhole(names[0], '|');
    } else {
      AlternatedIs(names[1..]);
      SplitPrefix(names[0], Alternated(names[1..]), '|');
      assert names[0] + "|" + Alternated(names[1..]) == names[0] + (['|'] + Alternated(names[1..]));
    }
  }

  /** What stands before the colon. */
  function Name(text: string): string {
    Strip(Split(text, ':')[0])
  }

  function Names(texts: seq<string>): seq<string> {
    seq(|texts|, i requires 0 <= i < |texts| => Name(texts[i]))
  }

  predicate IsEmpty(d: Description) {
    if d.Single? then d.text == [] else d.texts == []
  }

  function ListMarking(name: string): string {
    name + (" [" + (name + "]"))
  }

  function Marking(d: Description): string
    requires !IsEmpty(d)
  {
    match d
    case Single(text) => Name(text)
    case Alternatives(texts) => "<" + Alternated(Names(texts)) + ">"
    case ListOf(texts) => ListMarking(Name(texts[0]))
  }

  predicate IsWord(s: string) {
    s != [] && WordLength(s) == |s|
  }

  lemma WordLengthIs(s: string, n: nat)
    requires n <= |s| && (forall i :: 0 <= i < n ==> IsWordChar(s[i])) && (n < |s| ==> !IsWordChar(s[n]))
    ensures WordLength(s) == n
  {
    WordLengthEnds(s);
  }

  lemma WordThen(all: string, word: string)
    requires word <= all
    requires WordLength(word) < |word| || |all| == |word| || !IsWordChar(all[|word|])
    ensures WordLength(all) == WordLength(word)
  {
    WordLengthEnds(word);
    WordLengthIs(all, WordLength(word));
  }

  /** What follows after a blank does not bracket what was not. */
  lemma BracketedThen(s: string, rest: string)
    requires s != [] && " [" <= rest
    ensures IsBracketed(s + rest) <==> IsBracketed(s)
  {
    if |s| >= 2 {
      assert (s + rest)[2..] == s[2..] + rest;
      WordThen(s[2..] + rest, s[2..]);
    } else {
      assert (s + rest)[1] == rest[0];
    }
  }

  /** A list description is recognised as a list exactly when its name is one word, or looks like the marking of a
      list itself. The values of any other list argument are not gathered. */
  lemma ListIsRecognised(name: string)
    ensures IsList(ListMarking(name)) <==> IsWord(name) || IsList(name)
  {
    var n, tail := WordLength(name), " [" + (name + "]");
    WordThen(name + tail, name);
    if n < |name| {
      assert (name + tail)[n..] == name[n..] + tail;
      BracketedThen(name[n..], tail);
    } else {
      assert (name + tail)[n..] == tail && tail[2..] == name + "]";
      WordThen(name + "]", name);
    }
  }

  lemma OneWordListIsList(name: string)
    requires IsWord(name)
    ensures IsList(ListMarking(name))
  {
    ListIsRecognised(name);
  }

  /** A name of two words is not recognised. */
  lemma TwoWordListIsNoList(first: string, second: string)
    requires IsWord(first) && second != [] && second[0] != '['
    ensures !IsList(ListMarking(first + (" " + second)))
  {
    var rest := " " + second;
    ListIsRecognised(first + rest);
    WordThen(first + rest, first);
    assert (first + rest)[|first|..] == rest && rest[1] == second[0];
  }

  // Registration.

  /** No mandatory argument follows an optional one. */
  predicate MandatoryFirst(list: seq<Argument>) {
    forall i, j :: 0 <= i < j < |list| && list[j].mandatory ==> list[i].mandatory
  }

  predicate OneList(list: seq<Argument>) {
    forall i, j :: 0 <= i < j < |list| ==> !(list[i].gathers && list[j].gathers)
  }

  /** What follows a list argument is mandatory, and so is the list argument then. */
  predicate MandatoryAfterList(list: seq<Argument>) {
    forall i, j :: 0 <= i < |list| - 1 && list[i].gathers && i <= j < |list| ==> list[j].mandatory
  }

  predicate Rules(list: seq<Argument>) {
    MandatoryFirst(list) && OneList(list) && MandatoryAfterList(list)
  }

  datatype Registration = Registered | NoDescription | MandatoryAfterOptional | TwoLists | OptionalAfterList

  class LocalConfiguration {
    var commandArgumentList: seq<Argument>

    constructor ()
      ensures commandArgumentList == []
    {
      commandArgumentList := [];
    }

    /** A registration succeeds exactly when the rules hold with the new argument. One that breaks a rule about
        lists has put its argument into the list nevertheless. */
    method RegisterCmdArg(d: Description, mandatory: bool, values: seq<string>, default: Value)
      returns (result: Registration)
      requires Rules(commandArgumentList)
      modifies this
      ensures result.NoDescription? <==> d in [Single([]), Alternatives([]), ListOf([])]
      ensures commandArgumentList == old(commandArgumentList)
        + if result.NoDescription? || result.MandatoryAfterOptional? then []
          else [Argument(Marking(d), IsList(Marking(d)), mandatory, values,
                         if d.ListOf? && default.Nothing? then Many([]) else default)]
      ensures !(result.NoDescription? || result.MandatoryAfterOptional?) ==> MandatoryFirst(commandArgumentList)
      ensures result.Registered? <==> |commandArgumentList| > |old(commandArgumentList)| && Rules(commandArgumentList)
    {
      if IsEmpty(d) { return NoDescription; }
      var value := if d.ListOf? && default.Nothing? then Many([]) else default;
      if mandatory && commandArgumentList != [] && !commandArgumentList[|commandArgumentList| - 1].mandatory {
        return MandatoryAfterOptional;
      }
      commandArgumentList := commandArgumentList + [Argument(Marking(d), IsList(Marking(d)), mandatory, values, value)];
      result := CheckLists(commandArgumentList);
    }
  }

  /** At most one list argument, and nothing optional from it on unless it is the last. */
  method CheckLists(list: seq<Argument>) returns (result: Registration)
    ensures result.Registered? || result.TwoLists? || result.OptionalAfterList?
    ensures result.Registered? <==> OneList(list) && MandatoryAfterList(list)
  {
    var lists := ListIndexes(list);
    if |lists| > 1 {
      assert list[lists[0]].gathers && list[lists[1]].gathers;
      return TwoLists;
    }
    if lists != [] && lists[0] != |list| - 1 {
      var all := AllMandatory(list, lists[0]);
      if !all { return OptionalAfterList; }
    }
    result := Registered;
  }

  /** The positions of the list arguments. */
  method ListIndexes(list: seq<Argument>) returns (indexes: seq<nat>)
    ensures forall i :: 0 <= i < |list| && list[i].gathers ==> i in indexes
    ensures forall k :: 0 <= k < |indexes| ==> indexes[k] < |list| && list[indexes[k]].gathers
    ensures forall j, k :: 0 <= j < k < |indexes| ==> indexes[j] < indexes[k]
  {
    indexes := [];
    for i := 0 to |list|
      invariant forall j :: 0 <= j < i && list[j].gathers ==> j in indexes
      invariant forall k :: 0 <= k < |indexes| ==> indexes[k] < i && list[indexes[k]].gathers
      invariant forall j, k :: 0 <= j < k < |indexes| ==> indexes[j] < indexes[k]
    {
      if list[i].gathers { indexes := indexes + [i]; }
    }
  }

  method AllMandatory(list: seq<Argument>, from: nat) returns (all: bool)
    requires from < |list|
    ensures all == forall j :: from <= j < |list| ==> list[j].mandatory
  {
    all := true;
    for i := from to |list|
      invariant all == forall j :: from <= j < i ==> list[j].mandatory
    {
      if !list[i].mandatory { all := false; }
    }
  }

  // Grouping.

  datatype Parsed = Grouped(groups: seq<Value>) | Missing | NotAllowed

  function CountMandatory(list: seq<Argument>): nat {
    if list == [] then 0 else (if list[0].mandatory then 1 else 0) + CountMandatory(list[1..])
  }

  function ListIndex(list: seq<Argument>): (i: nat)
    ensures i <= |list| && (i < |list| ==> list[i].gathers) && forall j :: 0 <= j < i ==> !list[j].gathers
  {
    if list == [] || list[0].gathers then 0 else 1 + ListIndex(list[1..])
  }

  /** By how much an argument's value is further along than its place: the list argument took so many more. */
  function Shift(list: seq<Argument>, given: seq<string>, i: nat): int {
    if ListIndex(list) < i && ListIndex(list) < |given| then |given| - |list| else 0
  }

  function GroupAt(list: seq<Argument>, given: seq<string>, i: nat): Value
    requires i < |list| && (i == ListIndex(list) < |given| ==> |given| >= |list|) && Shift(list, given, i) >= 0
  {
    if |given| <= i + Shift(list, given, i) then list[i].default
    else if i == ListIndex(list) then Many(given[i..i + 1 + |given| - |list|])
    else One(given[i + Shift(list, given, i)])
  }

  predicate Allowed(list: seq<Argument>, texts: seq<string>, i: nat)
    requires i < |list|
  {
    list[i].values == [] || forall k :: 0 <= k < |texts| ==> texts[k] in list[i].values
  }

  lemma {:induction false} MandatoryIsPrefix(list: seq<Argument>, i: nat)
    requires MandatoryFirst(list) && i < |list| && list[i].mandatory
    ensures CountMandatory(list) > i
  {
    assert list[0].mandatory;
    if i > 0 {
      assert list[1..][i - 1] == list[i];
      MandatoryIsPrefix(list[1..], i - 1);
    }
  }

  /** A list argument that gets a value leaves enough for the arguments after it: no slice is negative. */
  lemma EnoughForList(list: seq<Argument>, given: seq<string>)
    requires Rules(list) && |given| >= CountMandatory(list) && ListIndex(list) < |list| && ListIndex(list) < |given|
    ensures |given| >= |list|
  {
    if ListIndex(list) < |list| - 1 {
      assert list[|list| - 1].mandatory;
      MandatoryIsPrefix(list, |list| - 1);
    }
  }

  lemma ShiftIsNotNegative(list: seq<Argument>, given: seq<string>, i: nat)
    requires Rules(list) && |given| >= CountMandatory(list) && i < |list|
    ensures Shift(list, given, i) >= 0 && (i == ListIndex(list) < |given| ==> |given| >= |list|)
  {
    if ListIndex(list) <= i && ListIndex(list) < |given| { EnoughForList(list, given); }
  }

  /** The values that the check of one argument looks at. */
  function LookedAt(list: seq<Argument>, given: seq<string>, i: nat): seq<string>
    requires i < |list| && Rules(list) && |given| >= CountMandatory(list)
  {
    ShiftIsNotNegative(list, given, i);
    var shift := Shift(list, given, i);
    if |given| <= i + shift then []
    else if i == ListIndex(list) then given[i..i + 1 + |given| - |list|]
    else given[i..i + 1 + shift]
  }

  ghost predicate GroupIs(list: seq<Argument>, given: seq<string>, group: Value, i: nat)
    requires i < |list| && Rules(list) && |given| >= CountMandatory(list)
  {
    ShiftIsNotNegative(list, given, i);
    group == GroupAt(list, given, i)
  }

  ghost predicate Fits(list: seq<Argument>, given: seq<string>, i: nat)
    requires i < |list| && Rules(list) && |given| >= CountMandatory(list)
  {
    Allowed(list, LookedAt(list, given, i), i)
  }

  /** The loop of the parser. */
  method ParseArguments(list: seq<Argument>, given: seq<string>) returns (parsed: Parsed)
    requires Rules(list)
    ensures parsed.Missing? <==> |given| < CountMandatory(list)
    ensures parsed.Grouped? ==> AreGroups(list, given, parsed.groups)
    ensures |given| >= CountMandatory(list) ==>
      (parsed.Grouped? <==> forall i :: 0 <= i < |list| ==> Fits(list, given, i))
  {
    if |given| < CountMandatory(list) { return Missing; }
    var groups, step := [], 0;
    for i := 0 to |list|
      invariant |groups| == i && step == Shift(list, given, i)
      invariant forall j :: 0 <= j < i ==> GroupIs(list, given, groups[j], j) && Fits(list, given, j)
    {
      var group, fit;
      group, step, fit := ParseArgument(list, given, i, step);
      if !fit { return NotAllowed; }
      groups := groups + [group];
    }
    parsed := Grouped(groups);
  }

  /** One round: the group of an argument, and how far the values are ahead of the arguments from then on. */
  method ParseArgument(list: seq<Argument>, given: seq<string>, i: nat, before: int)
    returns (group: Value, step: int, fit: bool)
    requires Rules(list) && i < |list| && |given| >= CountMandatory(list) && before == Shift(list, given, i)
    ensures GroupIs(list, given, group, i) && step == Shift(list, given, i + 1) && fit == Fits(list, given, i)
  {
    step := before;
    ShiftIsNotNegative(list, given, i);
    ListIndexIs(list, i);
    if |given| <= i + step {
      assert LookedAt(list, given, i) == [];
      return list[i].default, step, true;
    }
    if list[i].gathers {
      step := |given| - |list|;
      group := Many(given[i..i + 1 + step]);
    } else {
      group := One(given[i + step]);
    }
    var looked := given[i..i + 1 + step];
    assert looked == LookedAt(list, given, i);
    var all := AllIn(looked, list[i].values);
    fit := list[i].values == [] || all;
  }

  lemma ListIndexIs(list: seq<Argument>, i: nat)
    requires OneList(list) && i < |list|
    ensures list[i].gathers <==> i == ListIndex(list)
  {}

  method AllIn(texts: seq<string>, values: seq<string>) returns (all: bool)
    ensures all == forall k :: 0 <= k < |texts| ==> texts[k] in values
  {
    all := true;
    for i := 0 to |texts|
      invariant all == forall k :: 0 <= k < i ==> texts[k] in values
    {
      if texts[i] !in values { all := false; }
    }
  }

  // What the groups amount to.

  function Texts(v: Value): seq<string> {
    match v
    case Nothing => []
    case One(text) => [text]
    case Many(texts) => texts
  }

  function Flat(groups: seq<Value>): seq<string> {
    if groups == [] then []
    else Flat(groups[..|groups| - 1]) + Texts(groups[|groups| - 1])
  }

  ghost predicate AreGroups(list: seq<Argument>, given: seq<string>, groups: seq<Value>) {
    && Rules(list) && |given| >= CountMandatory(list) && |groups| == |list|
    && forall i :: 0 <= i < |list| ==> GroupIs(list, given, groups[i], i)
  }

  /** Where the values of the first k arguments end. */
  function End(list: seq<Argument>, given: seq<string>, k: nat): int {
    if ListIndex(list) < k then k + |given| - |list| else k
  }

  lemma GroupText(list: seq<Argument>, given: seq<string>, groups: seq<Value>, i: nat)
    requires AreGroups(list, given, groups) && i < |list| <= |given|
    ensures 0 <= End(list, given, i) <= End(list, given, i + 1) <= |given|
    ensures Texts(groups[i]) == given[End(list, given, i)..End(list, given, i + 1)]
  {}

  /** The groups so far hold the arguments so far, and the list argument all that the others leave. */
  lemma {:induction false} FlatPrefix(list: seq<Argument>, given: seq<string>, groups: seq<Value>, k: nat)
    requires AreGroups(list, given, groups) && k <= |list| <= |given|
    ensures 0 <= End(list, given, k) <= |given|
    ensures Flat(groups[..k]) == given[..End(list, given, k)]
    decreases k
  {
    if k > 0 {
      assert groups[..k][..k - 1] == groups[..k - 1] && groups[..k][k - 1] == groups[k - 1];
      FlatPrefix(list, given, groups, k - 1);
      GroupText(list, given, groups, k - 1);
      Joined(given, End(list, given, k - 1), End(list, given, k));
    }
  }

  lemma Joined(given: seq<string>, a: int, b: int)
    requires 0 <= a <= b <= |given|
    ensures given[..a] + given[a..b] == given[..b]
  {}

  /** With a list argument and enough given, the groups are the given arguments, each once and in order. */
  lemma GroupsPartition(list: seq<Argument>, given: seq<string>, groups: seq<Value>)
    requires AreGroups(list, given, groups) && |given| >= |list| && ListIndex(list) < |list|
    ensures Flat(groups) == given
  {
    FlatPrefix(list, given, groups, |list|);
    assert groups[..|list|] == groups && given[..|given|] == given;
  }

  /** Without one they are as many of the given arguments as there are registered ones. */
  lemma GroupsTakeFirst(list: seq<Argument>, given: seq<string>, groups: seq<Value>)
    requires AreGroups(list, given, groups) && |given| >= |list| && ListIndex(list) == |list|
    ensures Flat(groups) == given[..|list|]
    ensures forall i :: 0 <= i < |list| ==> groups[i] == One(given[i])
  {
    FlatPrefix(list, given, groups, |list|);
    assert groups[..|list|] == groups;
    forall i | 0 <= i < |list| ensures groups[i] == One(given[i]) {
      assert GroupIs(list, given, groups[i], i);
    }
  }

  /** With too few they are the given arguments one by one, and the defaults of the rest. */
  lemma GroupsFallBack(list: seq<Argument>, given: seq<string>, groups: seq<Value>)
    requires AreGroups(list, given, groups) && |given| < |list|
    ensures forall i :: 0 <= i < |given| ==> groups[i] == One(given[i])
    ensures forall i :: |given| <= i < |list| ==> groups[i] == list[i].default
  {
    if ListIndex(list) < |given| { EnoughForList(list, given); }
    forall i | 0 <= i < |list| ensures groups[i] == if i < |given| then One(given[i]) else list[i].default {
      assert GroupIs(list, given, groups[i], i);
    }
  }

  /** The check of an argument looks at its value alone, except behind a list argument that took more than one:
      there it looks at values of the arguments before it as well. */
  lemma CheckLooksAtValue(list: seq<Argument>, given: seq<string>, i: nat)
    requires Rules(list) && |given| >= CountMandatory(list) && i < |list| && i != ListIndex(list)
      && Shift(list, given, i) >= 0
    requires i + Shift(list, given, i) < |given|
    ensures LookedAt(list, given, i) == [given[i + Shift(list, given, i)]] <==> Shift(list, given, i) == 0
  {}
}
