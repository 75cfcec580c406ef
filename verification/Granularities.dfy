/** The bucket widths of an accounting type: which width a moment in time gets, given its age. */
module Granularities {
  import opened Remainders

  /** Seconds in a week: the width of everything older than the last span. */
  const MAX_BUCKET_TIME := 604800

  /** Data up to `span` seconds old is kept in buckets of `width` seconds. */
  datatype Granularity = Granularity(span: int, width: int)

  function Max(a: int, b: int): int { if a < b then b else a }

  function Min(a: int, b: int): int { if a < b then a else b }

  /** All the arithmetic asks of a configuration: it takes remainders by every width. */
  predicate Usable(cfg: seq<Granularity>) {
    forall g :: g in cfg ==> g.width > 0
  }

  /** Widths grow strictly with the spans, and the weekly width closes the list. */
  predicate Widening(cfg: seq<Granularity>) {
    && (forall i :: 0 <= i < |cfg| ==> 0 < cfg[i].width <= MAX_BUCKET_TIME && 0 <= cfg[i].span)
    && (forall i, j :: 0 <= i < j < |cfg| ==> cfg[i].width < cfg[j].width && cfg[i].span < cfg[j].span)
  }

  /** The width at position `i`, the weekly one standing after the last. */
  function WidthAt(cfg: seq<Granularity>, i: nat): int
    requires i <= |cfg|
  {
    if i < |cfg| then cfg[i].width else MAX_BUCKET_TIME
  }

  /** Each width divides the next, and the last divides a week. */
  predicate Chain(cfg: seq<Granularity>) {
    && Widening(cfg)
    && forall i :: 0 <= i < |cfg| ==> Link(cfg, i)
  }

  predicate Link(cfg: seq<Granularity>, i: nat)
    requires i < |cfg|
  {
    cfg[i].width > 0 && Divides(cfg[i].width, WidthAt(cfg, i + 1))
  }

  /** Adjacent spans lie at least the narrower width apart, or the narrower width divides the wider. */
  predicate Settled(cfg: seq<Granularity>) {
    && Widening(cfg)
    && forall i :: 0 <= i < |cfg| - 1 ==> Step(cfg, i)
  }

  predicate Step(cfg: seq<Granularity>, i: nat)
    requires i + 1 < |cfg|
  {
    Link(cfg, i) || cfg[i + 1].span - cfg[i].span >= cfg[i].width
  }

  /** Adjacent spans lie at least both their widths apart. */
  predicate Spaced(cfg: seq<Granularity>) {
    && Widening(cfg)
    && forall i :: 0 <= i < |cfg| - 1 ==> Room(cfg, i)
  }

  predicate Room(cfg: seq<Granularity>, i: nat)
    requires i + 1 < |cfg|
  {
    cfg[i + 1].span - cfg[i].span >= cfg[i].width + cfg[i + 1].width
  }

  /** Whether granularity `g` still covers the moment `when`, seen from `now`. */
  predicate Covers(g: Granularity, now: int, when: int)
    requires g.width > 0
  {
    Max(0, Floor(now, g.width) - when) <= g.span
  }

  /** The first moment granularity `g` covers, seen from `now`. */
  function Limit(g: Granularity, now: int): int
    requires g.width > 0
  {
    Floor(now, g.width) - g.span
  }

  /** The position of the first granularity, from position `i` on, that covers `when`. */
  function FirstCovering(cfg: seq<Granularity>, now: int, when: int, i: nat): (r: nat)
    requires Usable(cfg) && i <= |cfg|
    ensures i <= r <= |cfg|
    decreases |cfg| - i
  {
    if i == |cfg| || Covers(cfg[i], now, when) then i else FirstCovering(cfg, now, when, i + 1)
  }

  lemma {:induction false} FirstCoveringIs(cfg: seq<Granularity>, now: int, when: int, i: nat)
    requires Usable(cfg) && i <= |cfg|
    ensures var r := FirstCovering(cfg, now, when, i);
      && (forall j :: i <= j < r ==> !Covers(cfg[j], now, when))
      && (r < |cfg| ==> Covers(cfg[r], now, when))
    decreases |cfg| - i
  {
    if i < |cfg| && !Covers(cfg[i], now, when) {
      FirstCoveringIs(cfg, now, when, i + 1);
    }
  }

  /** A position that covers `when`, none before it doing so, is the first one. */
  lemma FirstCoveringUnique(cfg: seq<Granularity>, now: int, when: int, k: nat)
    requires Usable(cfg) && k <= |cfg|
    requires forall j :: 0 <= j < k ==> !Covers(cfg[j], now, when)
    requires k < |cfg| ==> Covers(cfg[k], now, when)
    ensures FirstCovering(cfg, now, when, 0) == k
  {
    FirstCoveringIs(cfg, now, when, 0);
    var r := FirstCovering(cfg, now, when, 0);
  }

  /** The width expected, at time `now`, for a bucket that holds the moment `when`. */
  function LengthForTime(cfg: seq<Granularity>, now: int, when: int): (w: int)
    requires Usable(cfg)
    ensures w > 0
  {
    WidthAt(cfg, FirstCovering(cfg, now, when, 0))
  }

  method CalculateBucketLengthForTime(cfg: seq<Granularity>, now: int, when: int) returns (w: int)
    requires Usable(cfg)
    ensures w == LengthForTime(cfg, now, when)
  {
    for i := 0 to |cfg|
      invariant FirstCovering(cfg, now, when, 0) == FirstCovering(cfg, now, when, i)
    {
      var nowBucketed := now - Mod(now, cfg[i].width);
      var dif := Max(0, nowBucketed - when);
      if dif <= cfg[i].span {
        return cfg[i].width;
      }
    }
    return MAX_BUCKET_TIME;
  }

  /** Covering is being no earlier than the limit. */
  lemma CoversFromLimit(g: Granularity, now: int, when: int)
    requires g.width > 0 && g.span >= 0
    ensures Covers(g, now, when) <==> Limit(g, now) <= when
  {}

  /** A later moment is never covered by a wider granularity only. */
  lemma LaterCoversEarlier(cfg: seq<Granularity>, now: int, early: int, late: int)
    requires Usable(cfg) && early <= late
    ensures FirstCovering(cfg, now, late, 0) <= FirstCovering(cfg, now, early, 0)
  {
    FirstCoveringIs(cfg, now, early, 0);
    FirstCoveringIs(cfg, now, late, 0);
    var i := FirstCovering(cfg, now, early, 0);
    assert i < |cfg| ==> Covers(cfg[i], now, late);
  }

  /** A later moment never gets a wider bucket. */
  lemma LengthShrinksWithTime(cfg: seq<Granularity>, now: int, early: int, late: int)
    requires Widening(cfg) && early <= late
    ensures LengthForTime(cfg, now, late) <= LengthForTime(cfg, now, early)
  {
    LaterCoversEarlier(cfg, now, early, late);
  }

  /** Along a chain every width divides every later one. */
  lemma {:induction false} ChainDivides(cfg: seq<Granularity>, i: nat, j: nat)
    requires Chain(cfg) && i <= j <= |cfg|
    ensures WidthAt(cfg, i) > 0 && Divides(WidthAt(cfg, i), WidthAt(cfg, j))
    decreases j - i
  {
    if i < j {
      assert Link(cfg, i);
      ChainDivides(cfg, i + 1, j);
      DividesMultiple(WidthAt(cfg, i), WidthAt(cfg, i + 1), WidthAt(cfg, j));
    }
  }

  lemma LimitStep(cfg: seq<Granularity>, now: int, i: nat)
    requires Settled(cfg) && i + 1 < |cfg|
    ensures Limit(cfg[i + 1], now) <= Limit(cfg[i], now)
  {
    assert Step(cfg, i);
    if Link(cfg, i) {
      FloorOfMultiple(now, cfg[i].width, cfg[i + 1].width);
    }
  }

  /** In a settled configuration, wider granularities have earlier limits, whatever the time. */
  lemma {:induction false} LimitsOrdered(cfg: seq<Granularity>, now: int, i: nat, j: nat)
    requires Settled(cfg) && i <= j < |cfg|
    ensures Limit(cfg[j], now) <= Limit(cfg[i], now)
    decreases j - i
  {
    if i < j {
      LimitsOrdered(cfg, now, i + 1, j);
      LimitStep(cfg, now, i);
    }
  }

  /** A moment before the limit of position `b` keeps a width beyond position `b`, now and later. */
  lemma OlderThanLimit(cfg: seq<Granularity>, b: nat, now: int, later: int, when: int)
    requires Settled(cfg) && b < |cfg| && now <= later && when < Limit(cfg[b], now)
    ensures FirstCovering(cfg, later, when, 0) > b
    ensures LengthForTime(cfg, later, when) >= WidthAt(cfg, b + 1)
  {
    var i := FirstCovering(cfg, later, when, 0);
    FirstCoveringIs(cfg, later, when, 0);
    if i <= b {
      FloorMonotone(now, later, cfg[b].width);
      CoversFromLimit(cfg[i], later, when);
      LimitsOrdered(cfg, later, i, b);
      assert false;
    }
  }

  lemma SpacedIsSettled(cfg: seq<Granularity>)
    requires Spaced(cfg)
    ensures Settled(cfg)
  {
    forall i | 0 <= i < |cfg| - 1 ensures Step(cfg, i) {
      assert Room(cfg, i);
    }
  }

  lemma ChainIsSettled(cfg: seq<Granularity>)
    requires Chain(cfg)
    ensures Settled(cfg)
  {}

  // The configurations the accounting types ship with.

  const DAY := 86400

  function BaseBuckets(): seq<Granularity> {
    [Granularity(DAY * 8, 3600), Granularity(15552000, DAY), Granularity(31104000, 604800)]
  }

  function TransferBuckets(): seq<Granularity> {
    [Granularity(DAY * 3, 900), Granularity(DAY * 8, 3600), Granularity(15552000, DAY), Granularity(31104000, 604800)]
  }

  function JobBuckets(): seq<Granularity> {
    [Granularity(DAY * 8, 3600), Granularity(DAY * 35, 14400), Granularity(DAY * 180, DAY),
     Granularity(DAY * 365, DAY * 2), Granularity(DAY * 600, 604800)]
  }

  /** Pilots and queue history alike. */
  function PilotBuckets(): seq<Granularity> {
    [Granularity(DAY * 2, 900), Granularity(DAY * 10, 9000), Granularity(DAY * 35, 18000),
     Granularity(DAY * 180, DAY), Granularity(DAY * 600, 604800)]
  }

  function StorageBuckets(): seq<Granularity> {
    [Granularity(DAY * 2, 3600), Granularity(DAY * 10, 21600), Granularity(DAY * 40, 43200),
     Granularity(DAY * 180, DAY * 2), Granularity(DAY * 600, DAY * 7)]
  }

  lemma LinkHolds(cfg: seq<Granularity>, i: nat, k: nat)
    requires i < |cfg| && cfg[i].width > 0 && WidthAt(cfg, i + 1) == k * cfg[i].width
    ensures Link(cfg, i)
  {
    TimesDivides(k, cfg[i].width);
  }

  lemma LinkFails(cfg: seq<Granularity>, i: nat, k: nat, rest: int)
    requires i < |cfg| && 0 < rest < cfg[i].width && WidthAt(cfg, i + 1) == k * cfg[i].width + rest
    ensures !Link(cfg, i)
  {
    TimesDivides(k, cfg[i].width);
    ModOfSum(k * cfg[i].width, rest, cfg[i].width);
  }

  predicate Grows(cfg: seq<Granularity>, i: nat)
    requires i + 1 < |cfg|
  {
    0 < cfg[i].width < cfg[i + 1].width && 0 <= cfg[i].span < cfg[i + 1].span
  }

  lemma {:induction false} GrowsBetween(cfg: seq<Granularity>, i: nat, j: nat)
    requires i < j < |cfg| && forall k :: 0 <= k < |cfg| - 1 ==> Grows(cfg, k)
    ensures cfg[i].width < cfg[j].width && cfg[i].span < cfg[j].span
    decreases j - i
  {
    assert Grows(cfg, i);
    if i + 1 < j {
      GrowsBetween(cfg, i + 1, j);
    }
  }

  /** It is enough to compare neighbours. */
  lemma SpacedFromNeighbours(cfg: seq<Granularity>)
    requires |cfg| > 1 && cfg[|cfg| - 1].width <= MAX_BUCKET_TIME
    requires forall k :: 0 <= k < |cfg| - 1 ==> Grows(cfg, k) && Room(cfg, k)
    ensures Spaced(cfg)
  {
    forall i, j | 0 <= i < j < |cfg| ensures cfg[i].width < cfg[j].width && cfg[i].span < cfg[j].span {
      GrowsBetween(cfg, i, j);
    }
    forall i | 0 <= i < |cfg| ensures 0 < cfg[i].width <= MAX_BUCKET_TIME && 0 <= cfg[i].span {
      if i < |cfg| - 1 {
        assert Grows(cfg, i);
        GrowsBetween(cfg, i, |cfg| - 1);
      } else {
        assert Grows(cfg, i - 1);
      }
    }
  }

  /** All shipped configurations are spaced. */
  lemma BaseSpaced()
    ensures Spaced(BaseBuckets())
  {
    SpacedFromNeighbours(BaseBuckets());
  }

  lemma TransferSpaced()
    ensures Spaced(TransferBuckets())
  {
    SpacedFromNeighbours(TransferBuckets());
  }

  lemma JobSpaced()
    ensures Spaced(JobBuckets())
  {
    SpacedFromNeighbours(JobBuckets());
  }

  lemma PilotSpaced()
    ensures Spaced(PilotBuckets())
  {
    SpacedFromNeighbours(PilotBuckets());
  }

  lemma StorageSpaced()
    ensures Spaced(StorageBuckets())
  {
    SpacedFromNeighbours(StorageBuckets());
  }

  lemma BaseIsChain()
    ensures Chain(BaseBuckets())
  {
    BaseSpaced();
    var c := BaseBuckets();
    LinkHolds(c, 0, 24);
    LinkHolds(c, 1, 7);
    LinkHolds(c, 2, 1);
  }

  lemma TransferIsChain()
    ensures Chain(TransferBuckets())
  {
    TransferSpaced();
    var c := TransferBuckets();
    LinkHolds(c, 0, 4);
    LinkHolds(c, 1, 24);
    LinkHolds(c, 2, 7);
    LinkHolds(c, 3, 1);
  }

  /** Two days do not divide a week, as the job and storage types would need. */
  lemma JobIsNoChain()
    ensures !Chain(JobBuckets())
  {
    LinkFails(JobBuckets(), 3, 3, 86400);
  }

  lemma StorageIsNoChain()
    ensures !Chain(StorageBuckets())
  {
    LinkFails(StorageBuckets(), 3, 3, 86400);
  }

  /** Nor do five hours divide a day, as the pilot and queue history types would need. */
  lemma PilotIsNoChain()
    ensures !Chain(PilotBuckets())
  {
    LinkFails(PilotBuckets(), 2, 4, 14400);
  }
}
