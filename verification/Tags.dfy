/** Comma-separated lists of tags that are kept in order and without repetitions. */
module Tags {
  import opened Lists

  function StripCommas(s: string): string {
    if s != [] && s[0] == ',' then StripCommas(s[1..])
    else if s != [] && s[|s| - 1] == ',' then StripCommas(s[..|s| - 1])
    else s
  }

  function WithoutItem(items: seq<string>, item: string): seq<string> {
    if items == [] then []
    else (if items[0] == item then [] else [items[0]]) + WithoutItem(items[1..], item)
  }

  function Normalised(parts: seq<string>): string {
    StripCommas(Glue(Sort(Unique(parts))))
  }

  function AddTag(tags: string, tag: string): string {
    Normalised(Split(tags, ',') + [tag])
  }

  function DropTag(tags: string, tag: string): string {
    Normalised(WithoutItem(Split(tags, ','), tag))
  }

  /** The tags a text names; an empty part is no tag. */
  predicate HasTag(tags: string, tag: string) {
    tag != [] && tag in Split(tags, ',')
  }

  predicate Ordered(list: seq<string>) {
    IsSorted(list) && NoDuplicates(list)
  }

  ghost predicate NoCommas(list: seq<string>) {
    forall y :: y in list ==> ',' !in y
  }

  ghost predicate SameItems(s: seq<string>, t: seq<string>) {
    forall y :: y in s <==> y in t
  }

  lemma TailItems(s: seq<string>, y: string)
    requires s != [] && NoDuplicates(s)
    ensures y in s[1..] <==> y in s && y != s[0]
  {}

  lemma {:induction false} InsertNew(x: string, s: seq<string>)
    requires NoDuplicates(s) && x !in s
    ensures NoDuplicates(Insert(x, s)) && forall y :: y in Insert(x, s) <==> y == x || y in s
  {
    if s != [] && !AtMost(x, s[0]) {
      TailItems(s, s[0]);
      InsertNew(x, s[1..]);
      var rest := Insert(x, s[1..]);
      assert s == [s[0]] + s[1..];
      assert s[0] !in rest;
      forall j | 0 <= j < |rest| ensures rest[j] != s[0] { assert rest[j] in rest; }
    }
  }

  lemma {:induction false} SortKeeps(s: seq<string>)
    requires NoDuplicates(s)
    ensures Ordered(Sort(s)) && SameItems(Sort(s), s)
  {
    SortIsSorted(s);
    if s != [] {
      SortKeeps(s[1..]);
      SortAdds(s, s[0], s[1..]);
    }
  }

  lemma SortAdds(s: seq<string>, x: string, rest: seq<string>)
    requires s == [x] + rest && NoDuplicates(s) && NoDuplicates(Sort(rest)) && SameItems(Sort(rest), rest)
    ensures NoDuplicates(Sort(s)) && SameItems(Sort(s), s)
  {
    assert s[0] == x && s[1..] == rest;
    TailItems(s, x);
    InsertNew(x, Sort(rest));
  }

  lemma FirstIsLeast(s: seq<string>, y: string)
    requires IsSorted(s) && y in s
    ensures AtMost(s[0], y)
  {}

  /** A sorted list without duplicates is determined by what is in it. */
  lemma {:induction false} OrderedIsUnique(s: seq<string>, t: seq<string>)
    requires Ordered(s) && Ordered(t) && SameItems(s, t)
    ensures s == t
  {
    assert s != [] ==> s[0] in s;
    assert t != [] ==> t[0] in t;
    if s != [] && t != [] {
      FirstIsLeast(s, t[0]);
      FirstIsLeast(t, s[0]);
      BeforeIsStrict(s[0], t[0]);
      forall y ensures y in s[1..] <==> y in t[1..] {
        TailItems(s, y);
        TailItems(t, y);
      }
      OrderedIsUnique(s[1..], t[1..]);
      assert s == [s[0]] + s[1..] && t == [t[0]] + t[1..];
    }
  }

  lemma {:induction false} SplitGlue(list: seq<string>)
    requires list != [] && NoCommas(list)
    ensures Split(Glue(list), ',') == list
  {
    assert list[0] in list;
    if |list| == 1 {
      SplitWhole(list[0], ',');
      assert list == [list[0]];
    } else {
      SplitPrefix(list[0], Glue(list[1..]), ',');
      SplitGlue(list[1..]);
      assert list == [list[0]] + list[1..];
    }
  }

  /** A list of real tags has no comma at either end. */
  lemma {:induction false} GlueEnds(list: seq<string>)
    requires list != [] && NoCommas(list) && [] !in list
    ensures Glue(list) != [] && Glue(list)[0] != ',' && Glue(list)[|Glue(list)| - 1] != ','
  {
    assert list[0] in list && list[0] != [];
    assert list[0][0] in list[0] && list[0][|list[0]| - 1] in list[0];
    if |list| > 1 { GlueEnds(list[1..]); }
  }

  lemma {:induction false} WithoutItemIs(items: seq<string>, item: string)
    ensures forall y :: y in WithoutItem(items, item) <==> y in items && y != item
  {
    if items != [] {
      WithoutItemIs(items[1..], item);
      assert items == [items[0]] + items[1..];
    }
  }

  /** The real tags among the parts, in order. */
  function Real(parts: seq<string>): seq<string> {
    Sort(Unique(WithoutItem(parts, [])))
  }

  lemma RealIs(parts: seq<string>)
    ensures Ordered(Real(parts)) && forall y :: y in Real(parts) <==> y in parts && y != []
  {
    WithoutItemIs(parts, []);
    UniqueHasAll(WithoutItem(parts, []));
    SortKeeps(Unique(WithoutItem(parts, [])));
  }

  /** Only an empty part could leave a comma at an end, and it comes first. */
  lemma NormalisedIsReal(parts: seq<string>)
    requires NoCommas(parts)
    ensures Normalised(parts) == Glue(Real(parts))
  {
    var list, kept := Sort(Unique(parts)), Real(parts);
    UniqueHasAll(parts);
    SortKeeps(Unique(parts));
    RealIs(parts);
    if [] in list {
      FirstIsLeast(list, []);
      assert list[0] == [];
      forall y ensures y in list[1..] <==> y in kept { TailItems(list, y); }
      OrderedIsUnique(list[1..], kept);
      assert list == [[]] + kept;
      if kept != [] {
        GlueEnds(kept);
        assert StripCommas(Glue(kept)) == Glue(kept);
        assert Glue(list) == list[0] + ([','] + Glue(kept));
        assert Glue(list)[0] == ',' && Glue(list)[1..] == Glue(kept);
        assert StripCommas(Glue(list)) == StripCommas(Glue(kept));
      } else {
        assert Glue(list) == [];
      }
    } else {
      OrderedIsUnique(list, kept);
      if kept != [] { GlueEnds(kept); }
    }
  }

  lemma PartsHaveNoComma(tags: string)
    ensures NoCommas(Split(tags, ','))
  {}

  /** The text names the tags among the parts, and it is the same for the same tags. */
  lemma NormalisedTags(parts: seq<string>, tag: string)
    requires NoCommas(parts) && tag != []
    ensures HasTag(Normalised(parts), tag) <==> tag in parts
  {
    NormalisedIsReal(parts);
    RealIs(parts);
    if Real(parts) == [] {
      assert Split(Glue(Real(parts)), ',') == [[]];
    } else {
      SplitGlue(Real(parts));
    }
  }

  lemma SameTagsSameText(one: seq<string>, two: seq<string>)
    requires NoCommas(one) && NoCommas(two) && forall y :: y != [] ==> (y in one <==> y in two)
    ensures Normalised(one) == Normalised(two)
  {
    NormalisedIsReal(one);
    NormalisedIsReal(two);
    RealIs(one);
    RealIs(two);
    OrderedIsUnique(Real(one), Real(two));
  }

  lemma AddTagAddsIt(tags: string, tag: string, other: string)
    requires tag != [] && ',' !in tag && other != []
    ensures HasTag(AddTag(tags, tag), other) <==> HasTag(tags, other) || other == tag
  {
    PartsHaveNoComma(tags);
    NormalisedTags(Split(tags, ',') + [tag], other);
  }

  lemma DropTagDropsIt(tags: string, tag: string, other: string)
    requires other != []
    ensures HasTag(DropTag(tags, tag), other) <==> HasTag(tags, other) && other != tag
  {
    PartsHaveNoComma(tags);
    WithoutItemIs(Split(tags, ','), tag);
    NormalisedTags(WithoutItem(Split(tags, ','), tag), other);
  }

  lemma NormalisedIsOrdered(parts: seq<string>)
    requires NoCommas(parts)
    ensures Normalised(parts) == [] || (Ordered(Split(Normalised(parts), ',')) && [] !in Split(Normalised(parts), ','))
  {
    NormalisedIsReal(parts);
    RealIs(parts);
    if Real(parts) != [] { SplitGlue(Real(parts)); }
  }

  /** What either writes is empty or a list of tags in order, each once and none empty. */
  lemma TagsAreOrdered(tags: string, tag: string)
    requires ',' !in tag
    ensures forall text :: text == AddTag(tags, tag) || text == DropTag(tags, tag) ==>
      text == [] || (Ordered(Split(text, ',')) && [] !in Split(text, ','))
  {
    PartsHaveNoComma(tags);
    WithoutItemIs(Split(tags, ','), tag);
    NormalisedIsOrdered(Split(tags, ',') + [tag]);
    NormalisedIsOrdered(WithoutItem(Split(tags, ','), tag));
  }

  /** Adding a tag again changes nothing. */
  lemma AddTagTwice(tags: string, tag: string)
    requires tag != [] && ',' !in tag
    ensures AddTag(AddTag(tags, tag), tag) == AddTag(tags, tag) && AddTag(tags, tag) != []
  {
    var once := AddTag(tags, tag);
    PartsHaveNoComma(tags);
    PartsHaveNoComma(once);
    forall y | y != [] ensures y in Split(once, ',') + [tag] <==> y in Split(tags, ',') + [tag] {
      AddTagAddsIt(tags, tag, y);
    }
    SameTagsSameText(Split(once, ',') + [tag], Split(tags, ',') + [tag]);
    NormalisedIsReal(Split(tags, ',') + [tag]);
    RealIs(Split(tags, ',') + [tag]);
    assert tag in Real(Split(tags, ',') + [tag]);
    GlueEnds(Real(Split(tags, ',') + [tag]));
  }

  /** Dropping it again changes nothing, and dropping it undoes adding it. */
  lemma DropTagTwice(tags: string, tag: string)
    requires tag != [] && ',' !in tag
    ensures DropTag(DropTag(tags, tag), tag) == DropTag(tags, tag)
    ensures DropTag(AddTag(tags, tag), tag) == DropTag(tags, tag)
  {
    PartsHaveNoComma(tags);
    WithoutItemIs(Split(tags, ','), tag);
    forall text | text == DropTag(tags, tag) || text == AddTag(tags, tag)
      ensures DropTag(text, tag) == DropTag(tags, tag)
    {
      PartsHaveNoComma(text);
      WithoutItemIs(Split(text, ','), tag);
      forall y | y != [] ensures y in WithoutItem(Split(text, ','), tag) <==> y in WithoutItem(Split(tags, ','), tag) {
        DropTagDropsIt(tags, tag, y);
        AddTagAddsIt(tags, tag, y);
      }
      SameTagsSameText(WithoutItem(Split(text, ','), tag), WithoutItem(Split(tags, ','), tag));
    }
  }
}
