/** Splitting the time span of a record over buckets. */
module Buckets {
  import opened Granularities
  import opened Remainders

  /** A bucket and the share of the record that falls in it. */
  datatype Bucket = Bucket(start: int, proportion: real, width: int) {
    function End(): int { start + width }
  }

  /** The seconds that [a, b) and [c, d) have in common. */
  function Overlap(a: int, b: int, c: int, d: int): int {
    Max(0, Min(b, d) - Max(a, c))
  }

  function Share(cur: int, width: int, start: int, end: int): real
    requires start != end
  {
    (Min(cur + width, end) - Max(cur, start)) as real / (end - start) as real
  }

  /** The buckets from `cur` on, `width` being the width of the first. */
  function PiecesFrom(cfg: seq<Granularity>, now: int, start: int, end: int, cur: int, width: int): seq<Bucket>
    requires Usable(cfg) && start != end && width > 0
    decreases end - cur
  {
    if cur >= end then []
    else
      [Bucket(cur, Share(cur, width, start, end), width)]
      + PiecesFrom(cfg, now, start, end, cur + width, LengthForTime(cfg, now, cur + width))
  }

  /** The buckets a record over [start, end] is split in at time `now`. */
  function BucketsOf(cfg: seq<Granularity>, now: int, start: int, end: int): seq<Bucket>
    requires Usable(cfg)
  {
    var width := LengthForTime(cfg, now, start);
    var first := Floor(start, width);
    if start == end then [Bucket(first, 1.0, width)] else PiecesFrom(cfg, now, start, end, first, width)
  }

  method CalculateBuckets(cfg: seq<Granularity>, now: int, start: int, end: int) returns (buckets: seq<Bucket>)
    requires Usable(cfg)
    ensures buckets == BucketsOf(cfg, now, start, end)
  {
    var width := CalculateBucketLengthForTime(cfg, now, start);
    var cur := Floor(start, width);
    if start == end {
      return [Bucket(cur, 1.0, width)];
    }
    buckets := [];
    ghost var all := PiecesFrom(cfg, now, start, end, cur, width);
    while cur < end
      invariant width > 0
      invariant all == buckets + PiecesFrom(cfg, now, start, end, cur, width)
      decreases end - cur
    {
      buckets := buckets + [Bucket(cur, Share(cur, width, start, end), width)];
      cur := cur + width;
      width := CalculateBucketLengthForTime(cfg, now, cur);
    }
  }

  function TotalProportion(bs: seq<Bucket>): real {
    if bs == [] then 0.0 else bs[0].proportion + TotalProportion(bs[1..])
  }

  /** The buckets lie side by side from the one holding `start` to the one holding the end of the span,
      each with exactly its share of the span. */
  ghost predicate Tiles(bs: seq<Bucket>, start: int, end: int) {
    && bs != []
    && bs[0].start <= start < bs[0].End()
    && (forall i :: 0 <= i < |bs| - 1 ==> bs[i + 1].start == bs[i].End())
    && (start == end ==> |bs| == 1 && bs[0].proportion == 1.0)
    && (start < end ==>
          && bs[|bs| - 1].start < end <= bs[|bs| - 1].End()
          && forall b :: b in bs ==> HoldsShare(b, start, end))
  }

  /** The bucket meets the span, and takes the share of it that the two have in common. */
  ghost predicate HoldsShare(b: Bucket, start: int, end: int)
    requires start < end
  {
    && Overlap(b.start, b.End(), start, end) > 0
    && b.proportion == Overlap(b.start, b.End(), start, end) as real / (end - start) as real
  }

  /** Every bucket has the width its own start asks for, except that the first goes by the record's start. */
  ghost predicate WidthsFit(cfg: seq<Granularity>, now: int, start: int, bs: seq<Bucket>)
    requires Usable(cfg)
  {
    forall i :: 0 <= i < |bs| ==>
      bs[i].width == LengthForTime(cfg, now, if i == 0 then start else bs[i].start)
  }

  lemma SharesAdd(a: int, b: int, d: int)
    requires d != 0
    ensures a as real / d as real + b as real / d as real == (a + b) as real / d as real
  {}

  /** The pieces from `cur` on, for a span that reaches into the first of them, lie side by side. */
  lemma {:induction false} PiecesShape(cfg: seq<Granularity>, now: int, start: int, end: int, cur: int, width: int)
    requires Usable(cfg) && start != end && width > 0 && cur < end
    ensures var bs := PiecesFrom(cfg, now, start, end, cur, width);
      && bs != [] && bs[0].start == cur && bs[0].width == width
      && (forall i :: 0 <= i < |bs| - 1 ==> bs[i + 1].start == bs[i].End())
      && (forall i :: 1 <= i < |bs| ==> bs[i].width == LengthForTime(cfg, now, bs[i].start))
      && bs[|bs| - 1].start < end <= bs[|bs| - 1].End()
    decreases end - cur
  {
    var bs := PiecesFrom(cfg, now, start, end, cur, width);
    var next := cur + width;
    var rest := PiecesFrom(cfg, now, start, end, next, LengthForTime(cfg, now, next));
    assert bs == [bs[0]] + rest;
    if next < end {
      PiecesShape(cfg, now, start, end, next, LengthForTime(cfg, now, next));
      forall i | 0 <= i < |bs| - 1 ensures bs[i + 1].start == bs[i].End() {
        if i > 0 { assert bs[i] == rest[i - 1] && bs[i + 1] == rest[i]; }
      }
      forall i | 1 <= i < |bs| ensures bs[i].width == LengthForTime(cfg, now, bs[i].start) {
        assert bs[i] == rest[i - 1];
      }
    }
  }

  /** Every one of them holds its share. */
  lemma {:induction false} PiecesShares(cfg: seq<Granularity>, now: int, start: int, end: int, cur: int, width: int)
    requires Usable(cfg) && start < end && width > 0 && start < cur + width
    ensures forall b :: b in PiecesFrom(cfg, now, start, end, cur, width) ==> HoldsShare(b, start, end)
    decreases end - cur
  {
    if cur < end {
      assert HoldsShare(Bucket(cur, Share(cur, width, start, end), width), start, end);
      PiecesShares(cfg, now, start, end, cur + width, LengthForTime(cfg, now, cur + width));
    }
  }

  /** Their shares add up to the part of the span that lies after `cur`. */
  lemma {:induction false} PiecesTotal(cfg: seq<Granularity>, now: int, start: int, end: int, cur: int, width: int)
    requires Usable(cfg) && start < end && width > 0 && cur < end && start < cur + width
    ensures TotalProportion(PiecesFrom(cfg, now, start, end, cur, width))
         == (end - Max(cur, start)) as real / (end - start) as real
    decreases end - cur
  {
    var bs := PiecesFrom(cfg, now, start, end, cur, width);
    var next := cur + width;
    var rest := PiecesFrom(cfg, now, start, end, next, LengthForTime(cfg, now, next));
    assert bs[1..] == rest;
    if next < end {
      PiecesTotal(cfg, now, start, end, next, LengthForTime(cfg, now, next));
      SharesAdd(next - Max(cur, start), end - next, end - start);
    }
  }

  lemma PiecesTile(cfg: seq<Granularity>, now: int, start: int, end: int, first: int, width: int)
    requires Usable(cfg) && start < end && first <= start < first + width && width == LengthForTime(cfg, now, start)
    ensures Tiles(PiecesFrom(cfg, now, start, end, first, width), start, end)
    ensures WidthsFit(cfg, now, start, PiecesFrom(cfg, now, start, end, first, width))
  {
    PiecesShape(cfg, now, start, end, first, width);
    PiecesShares(cfg, now, start, end, first, width);
  }

  /** A record that does not end before it starts is tiled, and its shares add up to all of it. */
  lemma RecordIsTiled(cfg: seq<Granularity>, now: int, start: int, end: int)
    requires Usable(cfg) && start <= end
    ensures Tiles(BucketsOf(cfg, now, start, end), start, end)
    ensures WidthsFit(cfg, now, start, BucketsOf(cfg, now, start, end))
    ensures TotalProportion(BucketsOf(cfg, now, start, end)) == 1.0
  {
    var width := LengthForTime(cfg, now, start);
    if start < end {
      PiecesTile(cfg, now, start, end, Floor(start, width), width);
      PiecesTotal(cfg, now, start, end, Floor(start, width), width);
      WholeShare(end - start);
    } else {
      assert BucketsOf(cfg, now, start, end)[1..] == [];
    }
  }

  /** The tiling has no freedom: starting at the right multiple, it is the list the code computes. */
  lemma {:induction false} TilingIsUnique(cfg: seq<Granularity>, now: int, start: int, end: int, bs: seq<Bucket>)
    requires Usable(cfg) && start <= end
    requires Tiles(bs, start, end) && WidthsFit(cfg, now, start, bs) && bs[0].width > 0
      && Divides(bs[0].width, bs[0].start)
    ensures bs == BucketsOf(cfg, now, start, end)
  {
    var cs := BucketsOf(cfg, now, start, end);
    RecordIsTiled(cfg, now, start, end);
    FloorUnique(bs[0].start, start, bs[0].width);
    SameTiles(cfg, now, start, end, bs, cs, 0);
  }

  lemma SameNextTile(cfg: seq<Granularity>, now: int, start: int, end: int, bs: seq<Bucket>, cs: seq<Bucket>, n: nat)
    requires Usable(cfg) && start <= end
    requires Tiles(bs, start, end) && WidthsFit(cfg, now, start, bs)
    requires Tiles(cs, start, end) && WidthsFit(cfg, now, start, cs)
    requires bs[0].start == cs[0].start
    requires n < |bs| && n < |cs| && (n > 0 ==> bs[n - 1] == cs[n - 1])
    ensures bs[n] == cs[n]
  {
    var b, c := bs[n], cs[n];
    if n > 0 { assert bs[n - 1 + 1].start == bs[n - 1].End() && cs[n - 1 + 1].start == cs[n - 1].End(); }
    assert b.start == c.start && b.width == c.width;
    if start < end {
      assert HoldsShare(b, start, end) && HoldsShare(c, start, end);
    }
  }

  lemma {:induction false} SameTiles(cfg: seq<Granularity>, now: int, start: int, end: int,
                                     bs: seq<Bucket>, cs: seq<Bucket>, n: nat)
    requires Usable(cfg) && start <= end
    requires Tiles(bs, start, end) && WidthsFit(cfg, now, start, bs)
    requires Tiles(cs, start, end) && WidthsFit(cfg, now, start, cs)
    requires bs[0].start == cs[0].start
    requires n <= |bs| && n <= |cs| && bs[..n] == cs[..n]
    ensures bs == cs
    decreases |bs| - n
  {
    if n == |bs| == |cs| {
    } else if n == |bs| || n == |cs| {
      assert bs[..n][n - 1] == cs[..n][n - 1];
      TilesAhead(bs, start, end, n - 1);
      TilesAhead(cs, start, end, n - 1);
    } else {
      if n > 0 { assert bs[..n][n - 1] == cs[..n][n - 1]; }
      SameNextTile(cfg, now, start, end, bs, cs, n);
      assert bs[..n + 1] == bs[..n] + [bs[n]] && cs[..n + 1] == cs[..n] + [cs[n]];
      SameTiles(cfg, now, start, end, bs, cs, n + 1);
    }
  }

  /** A tile is the last one exactly when the span ends in it. */
  lemma {:induction false} TilesAhead(bs: seq<Bucket>, start: int, end: int, i: nat)
    requires start <= end && Tiles(bs, start, end) && i < |bs|
    ensures i == |bs| - 1 <==> (start == end || bs[i].start < end <= bs[i].End())
    ensures start < end ==> bs[i].start < end && (i < |bs| - 1 ==> bs[i].End() < end)
    decreases |bs| - i
  {
    if start < end && i < |bs| - 1 {
      TilesAhead(bs, start, end, i + 1);
      assert bs[i + 1].start == bs[i].End() && HoldsShare(bs[i], start, end);
    }
  }

  /** The widths never grow along the list. */
  lemma WidthsNeverGrow(cfg: seq<Granularity>, now: int, start: int, end: int)
    requires Widening(cfg) && start <= end
    ensures var bs := BucketsOf(cfg, now, start, end);
      forall i :: 0 <= i < |bs| - 1 ==> bs[i + 1].width <= bs[i].width
  {
    var bs := BucketsOf(cfg, now, start, end);
    RecordIsTiled(cfg, now, start, end);
    forall i | 0 <= i < |bs| - 1 ensures bs[i + 1].width <= bs[i].width {
      LengthShrinksWithTime(cfg, now, if i == 0 then start else bs[i].start, bs[i + 1].start);
    }
  }

  lemma WidthsPositive(cfg: seq<Granularity>, now: int, start: int, end: int)
    requires Usable(cfg)
    ensures forall b :: b in BucketsOf(cfg, now, start, end) ==> b.width > 0
  {
    if start != end {
      var width := LengthForTime(cfg, now, start);
      PiecesPositive(cfg, now, start, end, Floor(start, width), width);
    }
  }

  lemma {:induction false} PiecesPositive(cfg: seq<Granularity>, now: int, start: int, end: int, cur: int, width: int)
    requires Usable(cfg) && start != end && width > 0
    ensures forall b :: b in PiecesFrom(cfg, now, start, end, cur, width) ==> b.width > 0
    decreases end - cur
  {
    if cur < end {
      PiecesPositive(cfg, now, start, end, cur + width, LengthForTime(cfg, now, cur + width));
    }
  }

  lemma PositiveQuotient(n: int, d: int)
    requires n > 0 && d > 0
    ensures n as real / d as real > 0.0
  {}

  lemma WholeShare(d: int)
    requires d != 0
    ensures d as real / d as real == 1.0
  {}

  /** A record that ends within the bucket of its start is put whole in that bucket. */
  lemma SingleBucket(cfg: seq<Granularity>, now: int, start: int, end: int)
    requires Usable(cfg)
    requires start <= end <= Floor(start, LengthForTime(cfg, now, start)) + LengthForTime(cfg, now, start)
    ensures var width := LengthForTime(cfg, now, start);
      BucketsOf(cfg, now, start, end) == [Bucket(Floor(start, width), 1.0, width)]
  {
    if start < end {
      var width := LengthForTime(cfg, now, start);
      var next := Floor(start, width) + width;
      WholeShare(end - start);
      assert PiecesFrom(cfg, now, start, end, next, LengthForTime(cfg, now, next)) == [];
    }
  }

  /** A record whose end precedes its start lands whole in the bucket of its start, when that bucket
      begins before the end, and is dropped otherwise. */
  lemma ReversedRecord(cfg: seq<Granularity>, now: int, start: int, end: int)
    requires Usable(cfg) && end < start
    ensures var width := LengthForTime(cfg, now, start);
      var first := Floor(start, width);
      BucketsOf(cfg, now, start, end) == if first < end then [Bucket(first, 1.0, width)] else []
  {
    var width := LengthForTime(cfg, now, start);
    var first := Floor(start, width);
    if first < end {
      WholeShare(end - start);
      assert PiecesFrom(cfg, now, start, end, first + width, LengthForTime(cfg, now, first + width)) == [];
    }
  }

  /** What a record gets of itself into the buckets: all of it, or nothing when it runs backwards and its first
      bucket does not begin before its end. */
  predicate Lands(cfg: seq<Granularity>, now: int, start: int, end: int)
    requires Usable(cfg)
  {
    start <= end || Floor(start, LengthForTime(cfg, now, start)) < end
  }

  /** The shares of any record add up to all of it, or there are no buckets at all. */
  lemma SharesOfRecord(cfg: seq<Granularity>, now: int, start: int, end: int)
    requires Usable(cfg)
    ensures Lands(cfg, now, start, end) ==> TotalProportion(BucketsOf(cfg, now, start, end)) == 1.0
    ensures Lands(cfg, now, start, end) <==> BucketsOf(cfg, now, start, end) != []
  {
    if start <= end {
      RecordIsTiled(cfg, now, start, end);
    } else {
      ReversedRecord(cfg, now, start, end);
      assert Lands(cfg, now, start, end) ==> BucketsOf(cfg, now, start, end)[1..] == [];
    }
  }

  /** A configuration keeps every bucket of every record from `since` on at a multiple of its width. */
  ghost predicate KeepsAlignment(cfg: seq<Granularity>, since: int)
    requires Usable(cfg)
  {
    forall now: int, start: int, end: int | since <= start <= end :: AlignedAt(cfg, now, start, end)
  }

  ghost predicate AlignedAt(cfg: seq<Granularity>, now: int, start: int, end: int)
    requires Usable(cfg)
  {
    forall b :: b in BucketsOf(cfg, now, start, end) ==> Aligned(b)
  }

  ghost predicate Aligned(b: Bucket) {
    b.width > 0 && Divides(b.width, b.start)
  }

  /** Along a chain, the width of a moment divides that of every earlier one. */
  lemma WidthsDivide(cfg: seq<Granularity>, now: int, early: int, late: int)
    requires Chain(cfg) && early <= late
    ensures Divides(LengthForTime(cfg, now, late), LengthForTime(cfg, now, early))
  {
    LaterCoversEarlier(cfg, now, early, late);
    ChainDivides(cfg, FirstCovering(cfg, now, late, 0), FirstCovering(cfg, now, early, 0));
  }

  lemma {:induction false} PiecesAligned(cfg: seq<Granularity>, now: int, start: int, end: int,
                                         cur: int, width: int, when: int)
    requires Chain(cfg) && start != end && when < cur + width
    requires width == LengthForTime(cfg, now, when) && Divides(width, cur)
    ensures forall b :: b in PiecesFrom(cfg, now, start, end, cur, width) ==> Aligned(b)
    decreases end - cur
  {
    if cur < end {
      var next := cur + width;
      var narrower := LengthForTime(cfg, now, next);
      WidthsDivide(cfg, now, when, next);
      ModShift(cur, width);
      DividesMultiple(narrower, width, next);
      PiecesAligned(cfg, now, start, end, next, narrower, next);
    }
  }

  lemma ChainKeepsAlignment(cfg: seq<Granularity>, now: int, start: int, end: int)
    requires Chain(cfg)
    ensures AlignedAt(cfg, now, start, end)
  {
    var width := LengthForTime(cfg, now, start);
    FloorIsMultiple(start, width);
    if start != end {
      PiecesAligned(cfg, now, start, end, Floor(start, width), width, start);
    }
  }

  /** When the next width and span `i` have just passed since a moment, that moment still gets the next width. */
  lemma LinkStart(cfg: seq<Granularity>, now: int, base: int, i: nat, wide: int)
    requires Spaced(cfg) && i < |cfg| && wide == WidthAt(cfg, i + 1)
    requires base + wide + cfg[i].span - cfg[i].width < now <= base + wide + cfg[i].span && Divides(cfg[i].width, now)
    ensures FirstCovering(cfg, now, base, 0) == i + 1
  {
    SpacedIsSettled(cfg);
    forall j | 0 <= j < i + 1 ensures !Covers(cfg[j], now, base) {
      LimitsOrdered(cfg, now, j, i);
    }
    if i + 1 < |cfg| {
      assert Room(cfg, i);
    }
    FirstCoveringUnique(cfg, now, base, i + 1);
  }

  /** And the moment one such width later gets width `i`. */
  lemma LinkNext(cfg: seq<Granularity>, now: int, base: int, i: nat, wide: int)
    requires Spaced(cfg) && i < |cfg| && wide == WidthAt(cfg, i + 1)
    requires base + wide + cfg[i].span - cfg[i].width < now <= base + wide + cfg[i].span && Divides(cfg[i].width, now)
    ensures FirstCovering(cfg, now, base + wide, 0) == i
  {
    SpacedIsSettled(cfg);
    forall j | 0 <= j < i ensures !Covers(cfg[j], now, base + wide) {
      assert Room(cfg, i - 1);
      LimitsOrdered(cfg, now, j, i - 1);
    }
    FirstCoveringUnique(cfg, now, base + wide, i);
  }

  /** Multiples of two widths lie beyond every moment. */
  lemma CommonMultipleAfter(v: int, w: int, since: int) returns (base: int)
    requires v > 0 && w > 0
    ensures base >= since && Divides(v, base) && Divides(w, base)
  {
    var k: nat := Max(0, since);
    base := k * v * w;
    TimesDivides(k * v, w);
    TimesDivides(k * w, v);
    assert base == k * w * v;
    AtLeastTimes(k, v);
    AtLeastTimes(k * v, w);
  }

  lemma {:induction false} AtLeastTimes(k: nat, v: int)
    requires v > 0
    ensures k * v >= k
    decreases v
  {
    if v > 1 {
      AtLeastTimes(k, v - 1);
      assert k * v == k * (v - 1) + k;
    }
  }

  /** Where width `i` does not divide the next, w, the record [m, m + w + 1] has its second bucket at m + w for
      every common multiple m of both, seen at a suitable time, and that is no multiple of width `i`. */
  lemma BrokenLink(cfg: seq<Granularity>, i: nat, since: int)
    requires Spaced(cfg) && i < |cfg| && !Link(cfg, i)
    ensures !KeepsAlignment(cfg, since)
  {
    var narrow, wide := cfg[i].width, WidthAt(cfg, i + 1);
    var base := CommonMultipleAfter(narrow, wide, since);
    var now := Floor(base + wide + cfg[i].span, narrow);
    FloorIsMultiple(base + wide + cfg[i].span, narrow);
    LinkStart(cfg, now, base, i, wide);
    LinkNext(cfg, now, base, i, wide);
    var bs := BucketsOf(cfg, now, base, base + wide + 1);
    RecordIsTiled(cfg, now, base, base + wide + 1);
    assert bs[1].start == base + wide && bs[1].width == narrow;
    ModOfSum(base, wide, narrow);
    assert !AlignedAt(cfg, now, base, base + wide + 1) by { assert bs[1] in bs; }
  }

  /** From any moment on, buckets always start on multiples of their widths exactly when the widths form a chain. */
  lemma AlignedExactlyOnChains(cfg: seq<Granularity>, since: int)
    requires Spaced(cfg)
    ensures KeepsAlignment(cfg, since) <==> Chain(cfg)
  {
    if Chain(cfg) {
      forall now: int, start: int, end: int | since <= start <= end ensures AlignedAt(cfg, now, start, end) {
        ChainKeepsAlignment(cfg, now, start, end);
      }
    } else {
      var i :| 0 <= i < |cfg| && !Link(cfg, i);
      BrokenLink(cfg, i, since);
    }
  }
}
