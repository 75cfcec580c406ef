/** SELECT .. SUM, MIN, MAX .. GROUP BY, as compaction and regeneration use it. */
module Grouping {
  import opened Granularities
  import opened BucketTables
  import opened Sums

  /** The groups hold every item once, are not empty, and hold the items of one label each. */
  ghost predicate IsGrouping<T, L>(groups: seq<seq<T>>, items: seq<T>, tag: T -> L) {
    && multiset(Flatten(groups)) == multiset(items)
    && (forall i :: 0 <= i < |groups| ==> groups[i] != [] && forall x :: x in groups[i] ==> tag(x) == tag(groups[i][0]))
    && (forall i, j :: 0 <= i < j < |groups| ==>
          tag(groups[i][0]) != tag(groups[j][0]))
  }

  lemma {:induction false} FlattenUpdate<T>(groups: seq<seq<T>>, i: nat, x: T)
    requires i < |groups|
    ensures multiset(Flatten(groups[i := groups[i] + [x]])) == multiset(Flatten(groups)) + multiset{x}
    decreases i
  {
    if i == 0 {
      assert groups[0 := groups[0] + [x]][1..] == groups[1..];
    } else {
      assert groups[i := groups[i] + [x]][1..] == groups[1..][i - 1 := groups[i] + [x]];
      FlattenUpdate(groups[1..], i - 1, x);
    }
  }

  lemma {:induction false} FlattenAppend<T>(groups: seq<seq<T>>, g: seq<T>)
    ensures Flatten(groups + [g]) == Flatten(groups) + g
    decreases |groups|
  {
    if groups == [] {
      assert [g][1..] == [] && Flatten([g]) == g + [];
    } else {
      assert (groups + [g])[1..] == groups[1..] + [g];
      FlattenAppend(groups[1..], g);
    }
  }

  lemma JoinsGroup<T, L>(groups: seq<seq<T>>, items: seq<T>, tag: T -> L, i: nat, x: T)
    requires IsGrouping(groups, items, tag) && i < |groups| && tag(groups[i][0]) == tag(x)
    ensures IsGrouping(groups[i := groups[i] + [x]], items + [x], tag)
  {
    FlattenUpdate(groups, i, x);
  }

  lemma StartsGroup<T, L>(groups: seq<seq<T>>, items: seq<T>, tag: T -> L, x: T)
    requires IsGrouping(groups, items, tag) && forall i :: 0 <= i < |groups| ==> tag(groups[i][0]) != tag(x)
    ensures IsGrouping(groups + [[x]], items + [x], tag)
  {
    FlattenAppend(groups, [x]);
  }

  method GroupBy<T(==), L(==)>(items: seq<T>, tag: T -> L) returns (groups: seq<seq<T>>)
    ensures IsGrouping(groups, items, tag)
  {
    groups := [];
    ghost var done: seq<T> := [];
    for n := 0 to |items|
      invariant done == items[..n] && IsGrouping(groups, done, tag)
    {
      var x := items[n];
      var i := 0;
      while i < |groups| && tag(groups[i][0]) != tag(x)
        invariant 0 <= i <= |groups|
        invariant forall j :: 0 <= j < i ==> tag(groups[j][0]) != tag(x)
      {
        i := i + 1;
      }
      if i < |groups| {
        JoinsGroup(groups, done, tag, i, x);
        groups := groups[i := groups[i] + [x]];
      } else {
        StartsGroup(groups, done, tag, x);
        groups := groups + [[x]];
      }
      done := done + [x];
    }
    assert done == items;
  }

  lemma NoGroupsNoItems<T, L>(items: seq<T>, tag: T -> L)
    requires IsGrouping([], items, tag)
    ensures items == []
  {}

  lemma {:induction false} InFlatten<T>(groups: seq<seq<T>>, g: seq<T>, x: T)
    requires g in groups && x in g
    ensures x in Flatten(groups)
    decreases |groups|
  {
    if g != groups[0] {
      InFlatten(groups[1..], g, x);
    }
  }

  lemma GroupedItem<T, L>(groups: seq<seq<T>>, items: seq<T>, tag: T -> L, g: seq<T>, x: T)
    requires IsGrouping(groups, items, tag) && g in groups && x in g
    ensures x in items
  {
    InFlatten(groups, g, x);
    assert x in multiset(Flatten(groups));
  }

  /** How items are read: their key fields, their values and the times they span. */
  datatype Reading<!T> = Reading(keys: T -> seq<int>, row: T -> Row, start: T -> int, end: T -> int)

  function SumRows<T>(xs: seq<T>, row: T -> Row): Row {
    if xs == [] then [] else Add(row(xs[0]), SumRows(xs[1..], row))
  }

  function MinOf<T>(xs: seq<T>, time: T -> int): (m: int)
    requires xs != []
    ensures exists x :: x in xs && time(x) == m
    ensures forall x :: x in xs ==> m <= time(x)
  {
    if |xs| == 1 then time(xs[0]) else Min(time(xs[0]), MinOf(xs[1..], time))
  }

  function MaxOf<T>(xs: seq<T>, time: T -> int): (m: int)
    requires xs != []
    ensures exists x :: x in xs && time(x) == m
    ensures forall x :: x in xs ==> time(x) <= m
  {
    if |xs| == 1 then time(xs[0]) else Max(time(xs[0]), MaxOf(xs[1..], time))
  }

  /** The row the query returns for a group. */
  function GroupEntry<T>(g: seq<T>, rd: Reading<T>): Entry
    requires g != []
  {
    Entry(rd.keys(g[0]), SumRows(g, rd.row), MinOf(g, rd.start), MaxOf(g, rd.end))
  }

  lemma GroupIsForward<T>(g: seq<T>, rd: Reading<T>)
    requires g != [] && forall x :: x in g ==> rd.start(x) <= rd.end(x)
    ensures GroupEntry(g, rd).start <= GroupEntry(g, rd).end
  {}

  function FieldOf<T>(row: T -> Row, f: nat): T -> real {
    (x: T) => Field(row(x), f)
  }

  lemma {:induction false} FieldOfSumRows<T>(xs: seq<T>, row: T -> Row, f: nat)
    ensures Field(SumRows(xs, row), f) == SeqSum(xs, FieldOf(row, f))
    decreases |xs|
  {
    if xs != [] {
      FieldOfSumRows(xs[1..], row, f);
      FieldOfAdd(row(xs[0]), SumRows(xs[1..], row), f);
    }
  }

  /** What the items with the given key fields add to field `f`. */
  function ItemAmount<T>(rd: Reading<T>, keys: seq<int>, f: nat): T -> real {
    (x: T) => if rd.keys(x) == keys then Field(rd.row(x), f) else 0.0
  }

  function GroupAmount<T>(rd: Reading<T>, keys: seq<int>, f: nat): seq<T> -> real {
    (g: seq<T>) => if g != [] && rd.keys(g[0]) == keys then Field(SumRows(g, rd.row), f) else 0.0
  }

  /** When the label fixes the key fields, grouping keeps the totals per key fields. */
  lemma GroupingConserves<T, L>(groups: seq<seq<T>>, items: seq<T>, tag: T -> L, rd: Reading<T>, keys: seq<int>, f: nat)
    requires IsGrouping(groups, items, tag)
    requires forall x, y :: x in items && y in items && tag(x) == tag(y) ==> rd.keys(x) == rd.keys(y)
    ensures SeqSum(groups, GroupAmount(rd, keys, f)) == SeqSum(items, ItemAmount(rd, keys, f))
  {
    forall g | g in groups ensures GroupAmount(rd, keys, f)(g) == SeqSum(g, ItemAmount(rd, keys, f)) {
      forall x | x in g ensures rd.keys(x) == rd.keys(g[0]) {
        GroupedItem(groups, items, tag, g, x);
        GroupedItem(groups, items, tag, g, g[0]);
      }
      FieldOfSumRows(g, rd.row, f);
      if rd.keys(g[0]) == keys {
        SeqSumCongruent(g, FieldOf(rd.row, f), ItemAmount(rd, keys, f));
      } else {
        SeqSumOfZero(g, ItemAmount(rd, keys, f));
      }
    }
    SeqSumFlatten(groups, ItemAmount(rd, keys, f), GroupAmount(rd, keys, f));
    SeqSumPermuted(Flatten(groups), items, ItemAmount(rd, keys, f));
  }
}
