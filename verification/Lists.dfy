/** Comma-separated lists and slash-separated paths, as options of the configuration hold them. */
module Lists {

  predicate IsSpace(c: char) {
    c == ' ' || '\t' <= c <= '\r'
  }

  function StripLeft(s: string): string {
    if s != [] && IsSpace(s[0]) then StripLeft(s[1..]) else s
  }

  function StripRight(s: string): string {
    if s != [] && IsSpace(s[|s| - 1]) then StripRight(s[..|s| - 1]) else s
  }

  function Strip(s: string): string {
    StripRight(StripLeft(s))
  }

  function Split(s: string, sep: char): (r: seq<string>)
    ensures r != []
  {
    if s == [] then [[]]
    else
      var rest := Split(s[1..], sep);
      if s[0] == sep then [[]] + rest else [[s[0]] + rest[0]] + rest[1..]
  }

  /** The stripped fields, empty ones left out. */
  function Fields(parts: seq<string>): seq<string> {
    if parts == [] then []
    else (if Strip(parts[0]) == [] then [] else [Strip(parts[0])]) + Fields(parts[1..])
  }

  function FromChar(s: string, sep: char): seq<string> {
    Fields(Split(s, sep))
  }

  function Levels(path: string): seq<string> {
    FromChar(path, '/')
  }

  /** The items with a comma and a blank between them. */
  function Join(items: seq<string>): string {
    if items == [] then []
    else if |items| == 1 then items[0]
    else items[0] + [','] + ([' '] + Join(items[1..]))
  }

  /** The items with only a comma between them. */
  function Glue(items: seq<string>): string {
    if items == [] then []
    else if |items| == 1 then items[0]
    else items[0] + ([','] + Glue(items[1..]))
  }

  /** The path that leads through the levels. */
  function PathTo(levels: seq<string>): string {
    if levels == [] then [] else ['/'] + (levels[0] + PathTo(levels[1..]))
  }

  /** An item that a list can hold: not empty, without the separator, nothing to strip. */
  predicate Clean(item: string, sep: char) {
    item != [] && sep !in item && !IsSpace(item[0]) && !IsSpace(item[|item| - 1])
  }

  predicate AllClean(items: seq<string>, sep: char) {
    forall i :: 0 <= i < |items| ==> Clean(items[i], sep)
  }

  // What comes out of a list is clean, and clean items come back out.

  lemma {:induction false} StripLeftClean(s: string, sep: char)
    requires sep !in s
    ensures sep !in StripLeft(s)
    ensures StripLeft(s) != [] ==> !IsSpace(StripLeft(s)[0])
  {
    if s != [] && IsSpace(s[0]) { StripLeftClean(s[1..], sep); }
  }

  lemma {:induction false} StripRightClean(s: string, sep: char)
    requires sep !in s && (s != [] ==> !IsSpace(s[0]))
    ensures StripRight(s) != [] ==> Clean(StripRight(s), sep)
  {
    if s != [] && IsSpace(s[|s| - 1]) {
      StripRightClean(s[..|s| - 1], sep);
    }
  }

  lemma {:induction false} SplitParts(s: string, sep: char, i: nat)
    requires i < |Split(s, sep)|
    ensures sep !in Split(s, sep)[i]
  {
    if s != [] {
      var rest := Split(s[1..], sep);
      if s[0] == sep {
        if i > 0 { SplitParts(s[1..], sep, i - 1); }
      } else {
        SplitParts(s[1..], sep, i);
      }
    }
  }

  lemma {:induction false} FieldsClean(parts: seq<string>, sep: char)
    requires forall i :: 0 <= i < |parts| ==> sep !in parts[i]
    ensures AllClean(Fields(parts), sep)
  {
    if parts != [] {
      StripLeftClean(parts[0], sep);
      StripRightClean(StripLeft(parts[0]), sep);
      FieldsClean(parts[1..], sep);
    }
  }

  lemma FromCharIsClean(s: string, sep: char)
    ensures AllClean(FromChar(s, sep), sep)
  {
    forall i | 0 <= i < |Split(s, sep)| ensures sep !in Split(s, sep)[i] { SplitParts(s, sep, i); }
    FieldsClean(Split(s, sep), sep);
  }

  lemma {:induction false} SplitPrefix(item: string, rest: string, sep: char)
    requires sep !in item
    ensures Split(item + ([sep] + rest), sep) == [item] + Split(rest, sep)
  {
    if item == [] {
      assert item + ([sep] + rest) == [sep] + rest;
      assert ([sep] + rest)[1..] == rest;
    } else {
      assert (item + ([sep] + rest))[1..] == item[1..] + ([sep] + rest);
      SplitPrefix(item[1..], rest, sep);
      assert item == [item[0]] + item[1..];
    }
  }

  lemma {:induction false} SplitWhole(item: string, sep: char)
    requires sep !in item
    ensures Split(item, sep) == [item]
  {
    if item != [] {
      SplitWhole(item[1..], sep);
      assert item == [item[0]] + item[1..];
    }
  }

  /** The first item of a list is stripped, and left out if nothing remains; then come the others. */
  lemma FromCharFirst(item: string, rest: string, sep: char)
    requires sep !in item
    ensures FromChar(item, sep) == if Strip(item) == [] then [] else [Strip(item)]
    ensures FromChar(item + ([sep] + rest), sep) == FromChar(item, sep) + FromChar(rest, sep)
  {
    SplitWhole(item, sep);
    SplitPrefix(item, rest, sep);
    var parts, all := Split(rest, sep), [item] + Split(rest, sep);
    assert [item][1..] == [] && Fields([item]) == (if Strip(item) == [] then [] else [Strip(item)]) + [];
    assert all[0] == item && all[1..] == parts;
    assert Fields(all) == Fields([item]) + Fields(parts);
  }

  /** Stripping takes blanks off both ends, and all of them. */
  lemma StripIs(s: string) returns (before: string, after: string)
    ensures s == before + (Strip(s) + after)
    ensures (forall c :: c in before ==> IsSpace(c)) && (forall c :: c in after ==> IsSpace(c))
    ensures Strip(s) != [] ==> !IsSpace(Strip(s)[0]) && !IsSpace(Strip(s)[|Strip(s)| - 1])
  {
    before := StripLeftIs(s);
    after := StripRightIs(StripLeft(s));
  }

  lemma {:induction false} StripLeftIs(s: string) returns (before: string)
    ensures s == before + StripLeft(s) && forall c :: c in before ==> IsSpace(c)
    ensures StripLeft(s) != [] ==> !IsSpace(StripLeft(s)[0])
  {
    before := [];
    if s != [] && IsSpace(s[0]) {
      before := StripLeftIs(s[1..]);
      before := [s[0]] + before;
    }
  }

  lemma {:induction false} StripRightIs(s: string) returns (after: string)
    ensures s == StripRight(s) + after && forall c :: c in after ==> IsSpace(c)
    ensures StripRight(s) != [] ==> !IsSpace(StripRight(s)[|StripRight(s)| - 1])
  {
    after := [];
    if s != [] && IsSpace(s[|s| - 1]) {
      after := StripRightIs(s[..|s| - 1]);
      after := after + [s[|s| - 1]];
    }
  }

  /** A blank in front is stripped away. */
  lemma BlankInFront(s: string)
    ensures FromChar([' '] + s, ',') == FromChar(s, ',')
  {}

  lemma CleanIsStripped(item: string, sep: char)
    requires Clean(item, sep)
    ensures Strip(item) == item
  {}

  lemma {:induction false} JoinRoundTrip(items: seq<string>)
    requires AllClean(items, ',')
    ensures FromChar(Join(items), ',') == items
  {
    if items == [] {
      var none: string := [];
      assert Split(none, ',')[1..] == [];
      assert Strip(none) == none;
    } else {
      var item, rest := items[0], items[1..];
      assert Clean(item, ',') && AllClean(rest, ',');
      CleanIsStripped(item, ',');
      if |items| == 1 {
        SplitWhole(item, ',');
        assert items == [item] && Split(item, ',') == [item] && Split(item, ',')[1..] == [];
        assert Fields([item]) == [item] + Fields([item][1..]);
      } else {
        JoinRoundTrip(rest);
        SplitPrefix(item, [' '] + Join(rest), ',');
        assert item + [','] + ([' '] + Join(rest)) == item + ([','] + ([' '] + Join(rest)));
        BlankInFront(Join(rest));
        var parts := [item] + Split([' '] + Join(rest), ',');
        assert parts[1..] == Split([' '] + Join(rest), ',');
        assert items == [item] + rest;
      }
    }
  }

  lemma EmptyList()
    ensures FromChar([], ',') == []
  {
    JoinRoundTrip([]);
  }

  lemma {:induction false} GlueRoundTrip(items: seq<string>)
    requires AllClean(items, ',')
    ensures FromChar(Glue(items), ',') == items
  {
    if items == [] {
      JoinRoundTrip(items);
    } else {
      var item, rest := items[0], items[1..];
      assert Clean(item, ',') && AllClean(rest, ',');
      if |items| == 1 {
        JoinRoundTrip(items);
      } else {
        CleanIsStripped(item, ',');
        GlueRoundTrip(rest);
        SplitPrefix(item, Glue(rest), ',');
        var parts := [item] + Split(Glue(rest), ',');
        assert parts[1..] == Split(Glue(rest), ',');
        assert items == [item] + rest;
      }
    }
  }

  /** A path leads through the levels it is made of. */
  lemma {:induction false} PathRoundTrip(levels: seq<string>)
    requires AllClean(levels, '/')
    ensures Levels(PathTo(levels)) == levels
  {
    var path := PathTo(levels);
    if levels == [] {
      assert Split(path, '/')[1..] == [];
    } else {
      assert path[1..] == levels[0] + PathTo(levels[1..]);
      assert Split(path, '/')[1..] == Split(path[1..], '/');
      assert Strip([]) == [];
      RestRoundTrip(levels);
    }
  }

  lemma {:induction false} RestRoundTrip(levels: seq<string>)
    requires levels != [] && AllClean(levels, '/')
    ensures Fields(Split(levels[0] + PathTo(levels[1..]), '/')) == levels
    decreases |levels|
  {
    var item, rest := levels[0], levels[1..];
    assert Clean(item, '/') && AllClean(rest, '/');
    CleanIsStripped(item, '/');
    if rest == [] {
      assert item + PathTo(rest) == item;
      SplitWhole(item, '/');
      assert Fields([item]) == [item] + Fields([item][1..]);
      assert levels == [item];
    } else {
      var after := rest[0] + PathTo(rest[1..]);
      SplitPrefix(item, after, '/');
      RestRoundTrip(rest);
      var parts := [item] + Split(after, '/');
      assert parts[1..] == Split(after, '/');
      assert levels == [item] + rest;
    }
  }

  // Unique elements.

  predicate NoDuplicates(s: seq<string>) {
    forall i, j :: 0 <= i < j < |s| ==> s[i] != s[j]
  }

  function Unique(s: seq<string>): seq<string> {
    if s == [] then []
    else
      var most, last := Unique(s[..|s| - 1]), s[|s| - 1];
      if last in most then most else most + [last]
  }

  function FirstIndex(s: seq<string>, x: string): nat
    requires x in s
  {
    if s[0] == x then 0 else 1 + FirstIndex(s[1..], x)
  }

  lemma {:induction false} UniqueHasAll(s: seq<string>)
    ensures NoDuplicates(Unique(s))
    ensures forall x :: x in Unique(s) <==> x in s
  {
    if s != [] {
      UniqueHasAll(s[..|s| - 1]);
      assert s == s[..|s| - 1] + [s[|s| - 1]];
    }
  }

  lemma {:induction false} FirstIndexInPrefix(s: seq<string>, last: string, x: string)
    requires x in s + [last]
    ensures FirstIndex(s + [last], x) == if x in s then FirstIndex(s, x) else |s|
    ensures x in s ==> FirstIndex(s, x) < |s|
  {
    if s == [] {
      assert (s + [last])[0] == last;
    } else if s[0] != x {
      assert (s + [last])[1..] == s[1..] + [last];
      FirstIndexInPrefix(s[1..], last, x);
    }
  }

  /** The elements kept stand in the order of their first occurrences. */
  lemma {:induction false} UniqueKeepsOrder(s: seq<string>, i: nat, j: nat)
    requires i < j < |Unique(s)|
    ensures Unique(s)[i] in s && Unique(s)[j] in s
    ensures FirstIndex(s, Unique(s)[i]) < FirstIndex(s, Unique(s)[j])
  {
    var most, last := s[..|s| - 1], s[|s| - 1];
    assert s == most + [last];
    UniqueHasAll(s);
    UniqueHasAll(most);
    var x, y := Unique(s)[i], Unique(s)[j];
    assert x in Unique(s) && y in Unique(s);
    assert x in s && y in s;
    FirstIndexInPrefix(most, last, x);
    FirstIndexInPrefix(most, last, y);
    if j < |Unique(most)| { UniqueKeepsOrder(most, i, j); }
  }

  method UniqueElements(s: seq<string>) returns (result: seq<string>)
    ensures result == Unique(s)
  {
    result := [];
    var seen: set<string> := {};
    for k := 0 to |s|
      invariant result == Unique(s[..k])
      invariant forall x :: x in seen <==> x in result
    {
      assert s[..k + 1][..k] == s[..k];
      if s[k] !in seen {
        result := result + [s[k]];
        seen := seen + {s[k]};
      }
    }
    assert s[..|s|] == s;
  }

  // The order of texts.

  predicate Before(a: string, b: string) {
    b != [] && (a == [] || a[0] < b[0] || (a[0] == b[0] && Before(a[1..], b[1..])))
  }

  predicate AtMost(a: string, b: string) {
    a == b || Before(a, b)
  }

  lemma {:induction false} BeforeIsStrict(a: string, b: string)
    ensures !(Before(a, b) && Before(b, a)) && !Before(a, a)
  {
    if a != [] {
      BeforeIsStrict(a[1..], if b == [] then [] else b[1..]);
    }
  }

  lemma {:induction false} BeforeIsTotal(a: string, b: string)
    ensures a == b || Before(a, b) || Before(b, a)
  {
    if a != [] && b != [] && a[0] == b[0] {
      BeforeIsTotal(a[1..], b[1..]);
      assert a == [a[0]] + a[1..] && b == [b[0]] + b[1..];
    }
  }

  lemma {:induction false} BeforeIsTransitive(a: string, b: string, c: string)
    ensures Before(a, b) && Before(b, c) ==> Before(a, c)
  {
    if a != [] && b != [] && c != [] { BeforeIsTransitive(a[1..], b[1..], c[1..]); }
  }

  // Sorting.

  predicate IsSorted(s: seq<string>) {
    forall i, j :: 0 <= i < j < |s| ==> AtMost(s[i], s[j])
  }

  function Insert(x: string, s: seq<string>): seq<string> {
    if s == [] || AtMost(x, s[0]) then [x] + s else [s[0]] + Insert(x, s[1..])
  }

  function Sort(s: seq<string>): seq<string> {
    if s == [] then [] else Insert(s[0], Sort(s[1..]))
  }

  lemma {:induction false} InsertItems(x: string, s: seq<string>)
    ensures forall y :: y in Insert(x, s) <==> y == x || y in s
    ensures multiset(Insert(x, s)) == multiset(s) + multiset{x}
  {
    if s != [] && !AtMost(x, s[0]) {
      InsertItems(x, s[1..]);
      assert s == [s[0]] + s[1..];
    }
  }

  lemma {:induction false} InsertKeeps(x: string, s: seq<string>)
    requires IsSorted(s)
    ensures IsSorted(Insert(x, s))
  {
    if s == [] {
    } else if AtMost(x, s[0]) {
      forall j | 0 <= j < |s| ensures AtMost(x, s[j]) {
        if j > 0 {
          assert AtMost(s[0], s[j]);
          BeforeIsTransitive(x, s[0], s[j]);
        }
      }
    } else {
      BeforeIsTotal(x, s[0]);
      var rest := Insert(x, s[1..]);
      InsertKeeps(x, s[1..]);
      InsertItems(x, s[1..]);
      forall j | 0 <= j < |rest| ensures AtMost(s[0], rest[j]) {
        assert rest[j] in rest;
      }
    }
  }

  lemma {:induction false} SortIsSorted(s: seq<string>)
    ensures IsSorted(Sort(s)) && multiset(Sort(s)) == multiset(s)
  {
    if s != [] {
      SortIsSorted(s[1..]);
      InsertKeeps(s[0], Sort(s[1..]));
      InsertItems(s[0], Sort(s[1..]));
      assert s == [s[0]] + s[1..];
    }
  }

  lemma {:induction false} SortOfSorted(s: seq<string>)
    requires IsSorted(s)
    ensures Sort(s) == s
  {
    if s != [] {
      SortOfSorted(s[1..]);
      if |s| > 1 { assert AtMost(s[0], s[1]); }
      assert s == [s[0]] + s[1..];
    }
  }
}
