/** Bringing report data to one granularity: sums and averages over buckets of another width. */
module Rebucketing {
  import opened Options
  import opened Granularities
  import opened Remainders
  import opened Buckets
  import opened BucketTables
  import opened Sums

  /** A row of report data: the start of its bucket, the bucket's width, and the fields. */
  datatype DataRow = DataRow(start: int, length: nat, fields: seq<Option<real>>)

  function OrZero(v: Option<real>): real {
    if v.Some? then v.value else 0.0
  }

  /** The fields with None as zero, and the weight after them. */
  function Weighted(row: DataRow): Row {
    seq(|row.fields|, i requires 0 <= i < |row.fields| => OrZero(row.fields[i])) + [1.0]
  }

  /** Fixed buckets of width `g` from `cur` on. */
  function FixedPieces(g: int, start: int, end: int, cur: int): seq<Bucket>
    requires g > 0 && start != end
    decreases end - cur
  {
    if cur >= end then []
    else [Bucket(cur, Share(cur, g, start, end), g)] + FixedPieces(g, start, end, cur + g)
  }

  /** The buckets of width `g` that [start, end) is spread over; a span of exactly that width stays where it is. */
  function SpanBuckets(g: int, start: int, end: int): seq<Bucket>
    requires g > 0
  {
    if end - start == g then [Bucket(start, 1.0, g)]
    else if start == end then [Bucket(Floor(start, g), 1.0, g)]
    else FixedPieces(g, start, end, Floor(start, g))
  }

  function SpanBy(g: int): Splitter
    requires g > 0
  {
    (x: Timed) => SpanBuckets(g, x.entry.start, x.entry.end)
  }

  function RowEntry(row: DataRow): Timed {
    Timed(Entry([], Weighted(row), row.start, row.start + row.length), 0)
  }

  function RowEntries(rows: seq<DataRow>): seq<Timed> {
    seq(|rows|, i requires 0 <= i < |rows| => RowEntry(rows[i]))
  }

  /** The data per bucket of width `g`, the sum of the proportions after the fields. */
  function Spanned(g: int, rows: seq<DataRow>): Table
    requires g > 0
  {
    SpreadAll(SpanBy(g), map[], RowEntries(rows))
  }

  method SpanToGranularity(g: int, rows: seq<DataRow>) returns (normData: Table)
    requires g > 0
    ensures normData == Spanned(g, rows)
  {
    normData := map[];
    for i := 0 to |rows|
      invariant normData == Spanned(g, rows[..i])
    {
      normData := SpanRow(normData, g, rows[i]);
      SpannedMore(g, rows[..i], rows[i]);
      assert rows[..i + 1] == rows[..i] + [rows[i]];
    }
    assert rows[..|rows|] == rows;
  }

  lemma SpannedMore(g: int, rows: seq<DataRow>, row: DataRow)
    requires g > 0
    ensures Spanned(g, rows + [row])
         == WriteAll(Spanned(g, rows), SpanBuckets(g, row.start, row.start + row.length), [], Weighted(row))
  {
    SpreadAllAppend(SpanBy(g), map[], RowEntries(rows), RowEntry(row));
    assert RowEntries(rows + [row]) == RowEntries(rows) + [RowEntry(row)];
  }

  method SpanRow(before: Table, g: int, row: DataRow) returns (normData: Table)
    requires g > 0
    ensures normData == WriteAll(before, SpanBuckets(g, row.start, row.start + row.length), [], Weighted(row))
  {
    normData := before;
    var startEpoch, endEpoch := row.start, row.start + row.length;
    if row.length == g {
      OnePiece(before, Weighted(row), Bucket(startEpoch, 1.0, g));
      normData := AddToNormData(normData, g, startEpoch, row, 1.0);
    } else if startEpoch == endEpoch {
      OnePiece(before, Weighted(row), Bucket(Floor(startEpoch, g), 1.0, g));
      normData := AddToNormData(normData, g, startEpoch - Mod(startEpoch, g), row, 1.0);
    } else {
      var newBucketEpoch := startEpoch - Mod(startEpoch, g);
      ghost var all := WriteAll(before, FixedPieces(g, startEpoch, endEpoch, newBucketEpoch), [], Weighted(row));
      while newBucketEpoch < endEpoch
        invariant WriteAll(normData, FixedPieces(g, startEpoch, endEpoch, newBucketEpoch), [], Weighted(row)) == all
        decreases endEpoch - newBucketEpoch
      {
        assert FixedPieces(g, startEpoch, endEpoch, newBucketEpoch)[1..]
            == FixedPieces(g, startEpoch, endEpoch, newBucketEpoch + g);
        normData := AddToNormData(normData, g, newBucketEpoch, row, Share(newBucketEpoch, g, startEpoch, endEpoch));
        newBucketEpoch := newBucketEpoch + g;
      }
    }
  }

  method AddToNormData(normData: Table, g: int, date: int, row: DataRow, proportion: real) returns (after: Table)
    ensures after == Upsert(normData, BucketKey(date, g, []), Scale(Weighted(row), proportion))
  {
    var k := BucketKey(date, g, []);
    var part := Scale(Weighted(row), proportion);
    after := normData[k := if k in normData then Add(normData[k], part) else part];
  }

  lemma OnePiece(t: Table, row: Row, b: Bucket)
    ensures WriteAll(t, [b], [], row) == Upsert(t, BucketKey(b.start, b.width, []), Scale(row, b.proportion))
  {}

  // The pieces of one row.

  lemma {:induction false} FixedPiecesTotal(g: int, start: int, end: int, cur: int)
    requires g > 0 && start < end && cur < end && start < cur + g
    ensures TotalProportion(FixedPieces(g, start, end, cur)) == (end - Max(cur, start)) as real / (end - start) as real
    decreases end - cur
  {
    var bs := FixedPieces(g, start, end, cur);
    assert bs[1..] == FixedPieces(g, start, end, cur + g);
    if cur + g < end {
      FixedPiecesTotal(g, start, end, cur + g);
      SharesAdd(cur + g - Max(cur, start), end - (cur + g), end - start);
    }
  }

  lemma RowIsWhole(g: int, start: int, end: int)
    requires g > 0 && start <= end
    ensures TotalProportion(SpanBuckets(g, start, end)) == 1.0
  {
    if end - start == g || start == end {
      assert SpanBuckets(g, start, end)[1..] == [];
    } else {
      FixedPiecesTotal(g, start, end, Floor(start, g));
      WholeShare(end - start);
    }
  }

  lemma RowsAreWhole(g: int, rows: seq<DataRow>)
    requires g > 0
    ensures Whole(SpanBy(g), RowEntries(rows))
  {
    forall x | x in RowEntries(rows) ensures TotalProportion(SpanBy(g)(x)) == 1.0 {
      RowIsWhole(g, x.entry.start, x.entry.end);
    }
  }

  function Everywhere(): BucketKey -> bool { (k: BucketKey) => true }

  function Every(): Timed -> bool { (x: Timed) => true }

  function RowField(f: nat): DataRow -> real {
    (row: DataRow) => Field(Weighted(row), f)
  }

  /** Re-bucketing keeps the grand total of every field, None counting as zero, and the number of rows
      as the total of the weights. */
  lemma SpanKeepsTotals(g: int, rows: seq<DataRow>, f: nat)
    requires g > 0
    ensures Total(Spanned(g, rows), Everywhere(), f) == SeqSum(rows, RowField(f))
  {
    var xs := RowEntries(rows);
    RowsAreWhole(g, rows);
    SpreadingConserves(SpanBy(g), map[], xs, Everywhere(), Every(), f);
    SeqSumMapped(rows, xs, RowField(f), Amount(Every(), f));
  }

  // Two steps are one.

  /** The share of a bucket list that starts in the cell of width `cell` at `c`. */
  function ShareInCell(bs: seq<Bucket>, cell: int, c: int): real
    requires cell > 0
  {
    if bs == [] then 0.0
    else (if Floor(bs[0].start, cell) == c then bs[0].proportion else 0.0) + ShareInCell(bs[1..], cell, c)
  }

  /** Pieces of a width that divides the cell's add up, within a cell, to what the span has in common with it. */
  lemma {:induction false} PiecesInCell(g: int, cell: int, start: int, end: int, cur: int, c: int)
    requires g > 0 && cell > 0 && Divides(g, cell) && Divides(g, cur) && Divides(cell, c)
    requires start < end && start < cur + g
    ensures ShareInCell(FixedPieces(g, start, end, cur), cell, c)
         == Overlap(Max(cur, start), end, c, c + cell) as real / (end - start) as real
    decreases end - cur
  {
    if cur < end {
      var bs, next := FixedPieces(g, start, end, cur), cur + g;
      assert bs[1..] == FixedPieces(g, start, end, next);
      ModShift(cur, g);
      PiecesInCell(g, cell, start, end, next, c);
      CellHoldsSpan(cur, g, cell);
      PieceInOneCell(g, cell, cur, c);
      SharesAdd(if Floor(cur, cell) == c then Min(next, end) - Max(cur, start) else 0,
                Overlap(Max(next, start), end, c, c + cell), end - start);
      if Floor(cur, cell) != c { NoShare(end - start); }
    } else {
      NoShare(end - start);
    }
  }

  lemma NoShare(d: int)
    requires d != 0
    ensures 0 as real / d as real == 0.0
  {}

  /** A piece lies within the cell it starts in, and outside every other. */
  lemma PieceInOneCell(g: int, cell: int, cur: int, c: int)
    requires g > 0 && cell > 0 && Divides(g, cell) && Divides(g, cur) && Divides(cell, c)
    ensures Floor(cur, cell) == c ==> c <= cur && cur + g <= c + cell
    ensures Floor(cur, cell) != c ==> cur + g <= c || c + cell <= cur
  {
    CellHoldsSpan(cur, g, cell);
    if c <= cur < c + cell {
      FloorUnique(c, cur, cell);
    } else if cur < c {
      FloorMonotone(cur, c, cell);
      FloorUnique(c, c, cell);
      FloorIsMultiple(cur, cell);
      if Floor(cur, cell) + cell > c {
        FloorUnique(Floor(cur, cell), c, cell);
      }
    }
  }

  /** Rows that already have one of the two widths start on a multiple of it. */
  ghost predicate Fits(g: int, row: DataRow)
    requires g > 0
  {
    row.length == g ==> Divides(g, row.start)
  }

  /** Within a cell of the coarse width, the fine buckets of a row hold what its coarse bucket holds. */
  lemma FineAndCoarse(g: int, cell: int, row: DataRow, c: int)
    requires g > 0 && cell > 0 && Divides(g, cell) && Fits(g, row) && Fits(cell, row) && Divides(cell, c)
    ensures ShareInCell(SpanBuckets(g, row.start, row.start + row.length), cell, c)
         == ShareInCell(SpanBuckets(cell, row.start, row.start + row.length), cell, c)
  {
    var s, e := row.start, row.start + row.length;
    var fine, coarse := SpanBuckets(g, s, e), SpanBuckets(cell, s, e);
    DividesItself(cell);
    if row.length == 0 {
      FloorNested(s, g, cell);
      FloorNested(s, cell, cell);
      assert fine[1..] == [] && coarse[1..] == [];
    } else {
      if row.length != g {
        FloorIsMultiple(s, g);
        PiecesInCell(g, cell, s, e, Floor(s, g), c);
      } else {
        WholeInCell(g, cell, s, c);
      }
      if row.length != cell {
        FloorIsMultiple(s, cell);
        PiecesInCell(cell, cell, s, e, Floor(s, cell), c);
      } else {
        WholeInCell(cell, cell, s, c);
      }
    }
  }

  /** A span of exactly the width is all in one cell or all out of it. */
  lemma WholeInCell(g: int, cell: int, s: int, c: int)
    requires g > 0 && cell > 0 && Divides(g, cell) && Divides(g, s) && Divides(cell, c)
    ensures ShareInCell([Bucket(s, 1.0, g)], cell, c) == Overlap(s, s + g, c, c + cell) as real / g as real
  {
    assert [Bucket(s, 1.0, g)][1..] == [];
    PieceInOneCell(g, cell, s, c);
    WholeShare(g);
    NoShare(g);
  }

  /** The buckets that start in the cell at `c`. */
  function StartsIn(cell: int, c: int): BucketKey -> bool
    requires cell > 0
  {
    (k: BucketKey) => Floor(k.start, cell) == c
  }

  lemma {:induction false} PartInCell(bs: seq<Bucket>, v: real, cell: int, c: int)
    requires cell > 0
    ensures PickedPart(bs, [], v, StartsIn(cell, c)) == Portion(v, ShareInCell(bs, cell, c))
    decreases |bs|
  {
    if bs != [] {
      PartInCell(bs[1..], v, cell, c);
      Distribute(v, if Floor(bs[0].start, cell) == c then bs[0].proportion else 0.0, ShareInCell(bs[1..], cell, c));
    }
  }

  /** Every bucket is one of the cells. */
  ghost predicate OnCells(bs: seq<Bucket>, cell: int)
    requires cell > 0
  {
    forall b :: b in bs ==> b.width == cell && Divides(cell, b.start)
  }

  lemma {:induction false} PartOfCell(bs: seq<Bucket>, v: real, cell: int, c: int)
    requires cell > 0 && OnCells(bs, cell)
    ensures PartAt(bs, [], v, BucketKey(c, cell, [])) == Portion(v, ShareInCell(bs, cell, c))
    decreases |bs|
  {
    if bs != [] {
      var b := bs[0];
      assert b in bs && forall x :: x in bs[1..] ==> x in bs;
      PartOfCell(bs[1..], v, cell, c);
      FloorUnique(b.start, b.start, cell);
      Distribute(v, if Floor(b.start, cell) == c then b.proportion else 0.0, ShareInCell(bs[1..], cell, c));
    }
  }

  lemma {:induction false} FixedPiecesOnCells(g: int, start: int, end: int, cur: int)
    requires g > 0 && start != end && Divides(g, cur)
    ensures OnCells(FixedPieces(g, start, end, cur), g)
    decreases end - cur
  {
    if cur < end {
      ModShift(cur, g);
      FixedPiecesOnCells(g, start, end, cur + g);
    }
  }

  lemma RowOnCells(g: int, row: DataRow)
    requires g > 0 && Fits(g, row)
    ensures OnCells(SpanBuckets(g, row.start, row.start + row.length), g)
  {
    FloorIsMultiple(row.start, g);
    if row.length != g && row.length != 0 {
      FixedPiecesOnCells(g, row.start, row.start + row.length, Floor(row.start, g));
    }
  }

  // What each bucket holds, from the rows themselves.

  /** A field as a number, the weight of a row standing after its fields. */
  function FieldOrWeight(row: DataRow, f: nat): real {
    if f < |row.fields| then OrZero(row.fields[f]) else if f == |row.fields| then 1.0 else 0.0
  }

  /** The share of a row that belongs in the bucket at `at`: a row of the granularity stays where it is, one without
      length counts in the cell that holds it, and any other is spread evenly over its time. */
  function ShareAt(g: int, row: DataRow, at: int): real
    requires g > 0
  {
    if row.length == g then (if at == row.start then 1.0 else 0.0)
    else if !Divides(g, at) then 0.0
    else if row.length == 0 then (if at <= row.start < at + g then 1.0 else 0.0)
    else Overlap(row.start, row.start + row.length, at, at + g) as real / row.length as real
  }

  function AmountAt(g: int, at: int, f: nat): DataRow -> real
    requires g > 0
  {
    (row: DataRow) => Portion(FieldOrWeight(row, f), ShareAt(g, row, at))
  }

  lemma {:induction false} OffCells(bs: seq<Bucket>, v: real, cell: int, at: int)
    requires cell > 0 && OnCells(bs, cell) && !Divides(cell, at)
    ensures PartAt(bs, [], v, BucketKey(at, cell, [])) == 0.0
    decreases |bs|
  {
    if bs != [] {
      assert bs[0] in bs && forall b :: b in bs[1..] ==> b in bs;
      OffCells(bs[1..], v, cell, at);
    }
  }

  lemma SpreadRowBrings(g: int, row: DataRow, at: int, v: real)
    requires g > 0 && row.length != g && row.length != 0
    ensures PartAt(SpanBuckets(g, row.start, row.start + row.length), [], v, BucketKey(at, g, []))
         == Portion(v, ShareAt(g, row, at))
  {
    var s, e := row.start, row.start + row.length;
    var bs := SpanBuckets(g, s, e);
    FloorIsMultiple(s, g);
    FixedPiecesOnCells(g, s, e, Floor(s, g));
    if Divides(g, at) {
      DividesItself(g);
      PiecesInCell(g, g, s, e, Floor(s, g), at);
      PartOfCell(bs, v, g, at);
    } else {
      OffCells(bs, v, g, at);
      AllOrNothing(v);
    }
  }

  lemma PointInCell(g: int, start: int, at: int)
    requires g > 0
    ensures Floor(start, g) == at <==> Divides(g, at) && at <= start < at + g
  {
    FloorIsMultiple(start, g);
    if Divides(g, at) && at <= start < at + g { FloorUnique(at, start, g); }
  }

  lemma WholeAt(start: int, g: int, v: real, at: int)
    ensures PartAt([Bucket(start, 1.0, g)], [], v, BucketKey(at, g, [])) == if at == start then v else 0.0
  {
    AllOrNothing(v);
    assert [Bucket(start, 1.0, g)][1..] == [];
  }

  lemma RowBrings(g: int, row: DataRow, at: int, f: nat)
    requires g > 0
    ensures Contribution(SpanBy(g), RowEntry(row), BucketKey(at, g, []), f) == AmountAt(g, at, f)(row)
  {
    var v := FieldOrWeight(row, f);
    assert Field(Weighted(row), f) == v;
    AllOrNothing(v);
    if row.length == g || row.length == 0 {
      PointInCell(g, row.start, at);
      WholeAt(if row.length == g then row.start else Floor(row.start, g), g, v, at);
    } else {
      SpreadRowBrings(g, row, at, v);
    }
  }

  /** Every bucket holds, of every row, each field times the share of the row's time that the two have in common. */
  lemma SpannedHolds(g: int, rows: seq<DataRow>, at: int, f: nat)
    requires g > 0
    ensures Value(Spanned(g, rows), BucketKey(at, g, []), f) == SeqSum(rows, AmountAt(g, at, f))
  {
    var xs, key := RowEntries(rows), BucketKey(at, g, []);
    TableIsSum(SpanBy(g), map[], xs, key, f);
    forall i | 0 <= i < |rows| ensures AmountAt(g, at, f)(rows[i]) == ContributionTo(SpanBy(g), key, f)(xs[i]) {
      RowBrings(g, rows[i], at, f);
    }
    SeqSumMapped(rows, xs, AmountAt(g, at, f), ContributionTo(SpanBy(g), key, f));
  }

  /** One coarse step gives each cell the total of the fine step over that cell. */
  lemma CoarseIsTotalOfFine(g: int, cell: int, rows: seq<DataRow>, c: int, f: nat)
    requires g > 0 && cell > 0 && Divides(g, cell) && Divides(cell, c)
    requires forall row :: row in rows ==> Fits(g, row) && Fits(cell, row)
    ensures Value(Spanned(cell, rows), BucketKey(c, cell, []), f) == Total(Spanned(g, rows), StartsIn(cell, c), f)
  {
    var xs, at := RowEntries(rows), BucketKey(c, cell, []);
    TableIsSum(SpanBy(cell), map[], xs, at, f);
    TotalIsSum(SpanBy(g), map[], xs, StartsIn(cell, c), f);
    forall x | x in xs ensures ContributionTo(SpanBy(cell), at, f)(x) == PickedBy(SpanBy(g), StartsIn(cell, c), f)(x) {
      var i :| 0 <= i < |rows| && x == RowEntry(rows[i]);
      assert rows[i] in rows;
      RowContribution(g, cell, rows[i], c, f);
    }
    SeqSumCongruent(xs, ContributionTo(SpanBy(cell), at, f), PickedBy(SpanBy(g), StartsIn(cell, c), f));
  }

  lemma RowContribution(g: int, cell: int, row: DataRow, c: int, f: nat)
    requires g > 0 && cell > 0 && Divides(g, cell) && Divides(cell, c) && Fits(g, row) && Fits(cell, row)
    ensures Contribution(SpanBy(cell), RowEntry(row), BucketKey(c, cell, []), f)
         == PickedPart(SpanBy(g)(RowEntry(row)), [], Field(Weighted(row), f), StartsIn(cell, c))
  {
    var v, e := Field(Weighted(row), f), row.start + row.length;
    RowOnCells(cell, row);
    PartOfCell(SpanBuckets(cell, row.start, e), v, cell, c);
    PartInCell(SpanBuckets(g, row.start, e), v, cell, c);
    FineAndCoarse(g, cell, row, c);
  }

  // Sums as data for another step.

  /** The data with the weights deleted. */
  function WithoutWeights(t: Table): Table {
    map k | k in t :: if t[k] == [] then [] else t[k][..|t[k]| - 1]
  }

  method SumToGranularity(g: int, rows: seq<DataRow>) returns (sums: Table)
    requires g > 0
    ensures sums == WithoutWeights(Spanned(g, rows))
  {
    sums := SpanToGranularity(g, rows);
    ghost var normData := sums;
    var left := sums.Keys;
    while left != {}
      invariant left <= sums.Keys == normData.Keys
      invariant forall k :: k in left ==> sums[k] == normData[k]
      invariant forall k :: k in sums && k !in left ==> sums[k] == WithoutWeights(normData)[k]
      decreases left
    {
      var k :| k in left;
      sums := sums[k := if sums[k] == [] then [] else sums[k][..|sums[k]| - 1]];
      left := left - {k};
    }
  }

  function Present(row: Row): seq<Option<real>> {
    seq(|row|, i requires 0 <= i < |row| => Some(row[i]))
  }

  /** The sums as rows of report data, in the order of `keys`. */
  ghost predicate Lists(rows: seq<DataRow>, keys: seq<BucketKey>, sums: Table) {
    && |rows| == |keys|
    && (forall i, j :: 0 <= i < j < |keys| ==> keys[i] != keys[j])
    && (forall k :: k in sums <==> k in keys)
    && (forall i :: 0 <= i < |keys| ==>
          keys[i] in sums && rows[i] == DataRow(keys[i].start, Max(0, keys[i].width), Present(sums[keys[i]])))
  }

  ghost predicate FineTable(t: Table, g: int, columns: nat)
    requires g > 0
  {
    forall k :: k in t ==> k.width == g && k.keys == [] && Divides(g, k.start) && |t[k]| == columns
  }

  lemma {:induction false} WriteFine(t: Table, bs: seq<Bucket>, row: Row, g: int, columns: nat)
    requires g > 0 && FineTable(t, g, columns) && OnCells(bs, g) && |row| == columns
    ensures FineTable(WriteAll(t, bs, [], row), g, columns)
    decreases |bs|
  {
    if bs != [] {
      assert bs[0] in bs;
      WriteFine(Upsert(t, BucketKey(bs[0].start, bs[0].width, []), Scale(row, bs[0].proportion)), bs[1..], row, g,
        columns);
    }
  }

  lemma {:induction false} SpreadFine(t: Table, rows: seq<DataRow>, g: int, n: nat)
    requires g > 0 && FineTable(t, g, n + 1)
    requires forall row :: row in rows ==> Fits(g, row) && |row.fields| == n
    ensures FineTable(SpreadAll(SpanBy(g), t, RowEntries(rows)), g, n + 1)
    decreases |rows|
  {
    if rows != [] {
      assert rows[0] in rows;
      RowOnCells(g, rows[0]);
      WriteFine(t, SpanBuckets(g, rows[0].start, rows[0].start + rows[0].length), Weighted(rows[0]), g, n + 1);
      assert RowEntries(rows)[1..] == RowEntries(rows[1..]);
      SpreadFine(Spread(SpanBy(g), t, RowEntry(rows[0])), rows[1..], g, n);
    }
  }

  /** A fine bucket falls whole in the cell it starts in. */
  lemma FineBucketContribution(g: int, cell: int, k: BucketKey, row: Row, c: int, f: nat)
    requires g > 0 && cell > 0 && Divides(g, cell) && Divides(cell, c)
    requires k.width == g && Divides(g, k.start) && f < |row|
    ensures Contribution(SpanBy(cell), RowEntry(DataRow(k.start, g, Present(row))), BucketKey(c, cell, []), f)
         == if StartsIn(cell, c)(k) then row[f] else 0.0
  {
    var data := DataRow(k.start, g, Present(row));
    var coarse := SpanBuckets(cell, k.start, k.start + g);
    var v := Field(Weighted(data), f);
    assert v == row[f];
    assert Fits(g, data) && Fits(cell, data);
    RowOnCells(cell, data);
    PartOfCell(coarse, v, cell, c);
    FineAndCoarse(g, cell, data, c);
    assert SpanBuckets(g, k.start, k.start + g)[1..] == [];
    AllOrNothing(v);
  }

  lemma AllOrNothing(v: real)
    ensures Portion(v, 1.0) == v && Portion(v, 0.0) == 0.0
  {}

  /** Going to a fine granularity and from there to a coarse one is going to the coarse one: the same value
      in every cell, for any order in which the fine sums are taken. */
  lemma TwoStepsAreOne(g: int, cell: int, rows: seq<DataRow>, n: nat, fine: seq<DataRow>, keys: seq<BucketKey>,
                       c: int, f: nat)
    requires g > 0 && cell > 0 && Divides(g, cell) && Divides(cell, c) && f < n
    requires forall row :: row in rows ==> Fits(g, row) && Fits(cell, row) && |row.fields| == n
    requires Lists(fine, keys, WithoutWeights(Spanned(g, rows)))
    ensures Value(Spanned(cell, fine), BucketKey(c, cell, []), f)
      == Value(Spanned(cell, rows), BucketKey(c, cell, []), f)
  {
    var t, at := Spanned(g, rows), BucketKey(c, cell, []);
    SpreadFine(map[], rows, g, n);
    CoarseIsTotalOfFine(g, cell, rows, c, f);
    TableIsSum(SpanBy(cell), map[], RowEntries(fine), at, f);
    forall i | 0 <= i < |keys|
      ensures ContributionTo(SpanBy(cell), at, f)(RowEntries(fine)[i]) == Picked(t, StartsIn(cell, c), f)(keys[i])
    {
      FineBucketContribution(g, cell, keys[i], WithoutWeights(t)[keys[i]], c, f);
    }
    SeqSumMapped(RowEntries(fine), keys, ContributionTo(SpanBy(cell), at, f), Picked(t, StartsIn(cell, c), f));
    SeqSumOfSet(keys, t.Keys, Picked(t, StartsIn(cell, c), f));
  }

  // Averages.

  /** Every row has `n` fields and a positive weight. */
  ghost predicate PositiveWeights(t: Table, n: nat) {
    forall k :: k in t ==> |t[k]| == n + 1 && t[k][n] > 0.0
  }

  function Averages(t: Table): Table
    requires forall k :: k in t ==> t[k] != [] && t[k][|t[k]| - 1] != 0.0
  {
    map k | k in t :: seq(|t[k]| - 1, i requires 0 <= i < |t[k]| - 1 => t[k][i] / t[k][|t[k]| - 1])
  }

  method AverageToGranularity(g: int, rows: seq<DataRow>, ghost n: nat) returns (averages: Table)
    requires g > 0 && forall row :: row in rows ==> |row.fields| == n
    ensures PositiveWeights(Spanned(g, rows), n)
    ensures averages == Averages(Spanned(g, rows))
  {
    WeightsPositive(map[], rows, g, n);
    averages := SpanToGranularity(g, rows);
    ghost var normData := averages;
    var left := averages.Keys;
    while left != {}
      invariant left <= averages.Keys == normData.Keys
      invariant forall k :: k in left ==> averages[k] == normData[k]
      invariant forall k :: k in averages && k !in left ==> averages[k] == Averages(normData)[k]
      decreases left
    {
      var k :| k in left;
      var row := averages[k];
      averages := averages[k := seq(|row| - 1, i requires 0 <= i < |row| - 1 => row[i] / row[|row| - 1])];
      left := left - {k};
    }
  }

  lemma {:induction false} WriteWeights(t: Table, bs: seq<Bucket>, row: Row, n: nat)
    requires PositiveWeights(t, n) && |row| == n + 1 && row[n] == 1.0
    requires forall b :: b in bs ==> b.proportion > 0.0
    ensures PositiveWeights(WriteAll(t, bs, [], row), n)
    decreases |bs|
  {
    if bs != [] {
      assert bs[0] in bs;
      AllOrNothing(bs[0].proportion);
      WriteWeights(Upsert(t, BucketKey(bs[0].start, bs[0].width, []), Scale(row, bs[0].proportion)), bs[1..], row, n);
    }
  }

  lemma {:induction false} FixedPiecesPositive(g: int, start: int, end: int, cur: int)
    requires g > 0 && start < end && start < cur + g
    ensures forall b :: b in FixedPieces(g, start, end, cur) ==> b.proportion > 0.0
    decreases end - cur
  {
    if cur < end {
      PositiveQuotient(Min(cur + g, end) - Max(cur, start), end - start);
      FixedPiecesPositive(g, start, end, cur + g);
    }
  }

  lemma {:induction false} WeightsPositive(t: Table, rows: seq<DataRow>, g: int, n: nat)
    requires g > 0 && PositiveWeights(t, n) && forall row :: row in rows ==> |row.fields| == n
    ensures PositiveWeights(SpreadAll(SpanBy(g), t, RowEntries(rows)), n)
    decreases |rows|
  {
    if rows != [] {
      var row := rows[0];
      assert row in rows;
      if row.length != g && row.length != 0 {
        FixedPiecesPositive(g, row.start, row.start + row.length, Floor(row.start, g));
      }
      WriteWeights(t, SpanBuckets(g, row.start, row.start + row.length), Weighted(row), n);
      assert RowEntries(rows)[1..] == RowEntries(rows[1..]);
      WeightsPositive(Spread(SpanBy(g), t, RowEntry(row)), rows[1..], g, n);
    }
  }

  lemma {:induction false} PartIsShare(bs: seq<Bucket>, keys: seq<int>, v: real, at: BucketKey)
    ensures PartAt(bs, keys, v, at) == Portion(v, PartAt(bs, keys, 1.0, at))
    decreases |bs|
  {
    if bs != [] {
      PartIsShare(bs[1..], keys, v, at);
      var p := if at == BucketKey(bs[0].start, bs[0].width, keys) then bs[0].proportion else 0.0;
      AllOrNothing(p);
      Distribute(v, p, PartAt(bs[1..], keys, 1.0, at));
    }
  }

  /** The row brings something to bucket `at`. */
  ghost predicate Reaches(g: int, row: DataRow, at: BucketKey)
    requires g > 0
  {
    PartAt(SpanBuckets(g, row.start, row.start + row.length), [], 1.0, at) > 0.0
  }

  ghost predicate Between(lo: real, hi: real, weight: real, v: real) {
    Portion(lo, weight) <= v <= Portion(hi, weight)
  }

  lemma {:induction false} SumsBounded(split: Splitter, xs: seq<Timed>, n: nat, at: BucketKey, f: nat, lo: real,
                                       hi: real)
    requires forall x :: x in xs ==> Between(lo, hi, Contribution(split, x, at, n), Contribution(split, x, at, f))
    ensures Between(lo, hi, SeqSum(xs, ContributionTo(split, at, n)), SeqSum(xs, ContributionTo(split, at, f)))
    decreases |xs|
  {
    if xs == [] {
      AllOrNothing(lo);
      AllOrNothing(hi);
    } else {
      assert xs[0] in xs && forall x :: x in xs[1..] ==> x in xs;
      SumsBounded(split, xs[1..], n, at, f, lo, hi);
      BoundsAdd(lo, hi, Contribution(split, xs[0], at, n), Contribution(split, xs[0], at, f),
                SeqSum(xs[1..], ContributionTo(split, at, n)), SeqSum(xs[1..], ContributionTo(split, at, f)));
    }
  }

  lemma RowBounded(g: int, row: DataRow, n: nat, at: BucketKey, f: nat, lo: real, hi: real)
    requires g > 0 && f < n && |row.fields| == n
    requires Reaches(g, row, at) ==> lo <= OrZero(row.fields[f]) <= hi
    ensures Between(lo, hi, Contribution(SpanBy(g), RowEntry(row), at, n),
      Contribution(SpanBy(g), RowEntry(row), at, f))
  {
    var bs := SpanBuckets(g, row.start, row.start + row.length);
    var p, x := PartAt(bs, [], 1.0, at), OrZero(row.fields[f]);
    RowSharePositive(g, row, at);
    PartIsShare(bs, [], x, at);
    if p > 0.0 {
      PortionMonotone(lo, x, p);
      PortionMonotone(x, hi, p);
    } else {
      AllOrNothing(lo);
      AllOrNothing(hi);
      AllOrNothing(x);
    }
  }

  lemma BoundsAdd(lo: real, hi: real, p: real, x: real, w: real, v: real)
    requires Between(lo, hi, p, x) && Between(lo, hi, w, v)
    ensures Between(lo, hi, p + w, x + v)
  {}

  lemma PortionMonotone(a: real, b: real, p: real)
    requires a <= b && p >= 0.0
    ensures Portion(a, p) <= Portion(b, p)
  {}

  lemma {:induction false} PartPositive(bs: seq<Bucket>, at: BucketKey)
    requires forall b :: b in bs ==> b.proportion > 0.0
    ensures PartAt(bs, [], 1.0, at) >= 0.0
    decreases |bs|
  {
    if bs != [] {
      assert bs[0] in bs;
      AllOrNothing(bs[0].proportion);
      PartPositive(bs[1..], at);
    }
  }

  lemma RowSharePositive(g: int, row: DataRow, at: BucketKey)
    requires g > 0
    ensures PartAt(SpanBuckets(g, row.start, row.start + row.length), [], 1.0, at) >= 0.0
  {
    if row.length != g && row.length != 0 {
      FixedPiecesPositive(g, row.start, row.start + row.length, Floor(row.start, g));
    }
    PartPositive(SpanBuckets(g, row.start, row.start + row.length), at);
  }

  /** Every average lies between the bounds of the values that reach its bucket. */
  lemma AveragesBounded(g: int, rows: seq<DataRow>, n: nat, at: BucketKey, f: nat, lo: real, hi: real)
    requires g > 0 && f < n && forall row :: row in rows ==> |row.fields| == n
    requires forall row :: row in rows && Reaches(g, row, at) ==> lo <= OrZero(row.fields[f]) <= hi
    requires at in Spanned(g, rows)
    ensures AverageBetween(Spanned(g, rows), n, at, f, lo, hi)
  {
    WeightsPositive(map[], rows, g, n);
    SpannedBetween(g, rows, n, at, f, lo, hi);
    RowAverageBounded(Spanned(g, rows)[at], n, f, lo, hi);
    AverageIs(Spanned(g, rows), n, at, f, lo, hi);
  }

  /** All weights are positive, and the average of field `f` at `at` lies within the bounds. */
  ghost predicate AverageBetween(t: Table, n: nat, at: BucketKey, f: nat, lo: real, hi: real) {
    PositiveWeights(t, n) && at in t && lo <= Field(Averages(t)[at], f) <= hi
  }

  lemma AverageIs(t: Table, n: nat, at: BucketKey, f: nat, lo: real, hi: real)
    requires PositiveWeights(t, n) && at in t && f < n && lo <= t[at][f] / t[at][n] <= hi
    ensures AverageBetween(t, n, at, f, lo, hi)
  {}

  /** An average is the sum of what the rows bring to its bucket, over the sum of their shares. */
  lemma AverageIsMean(g: int, rows: seq<DataRow>, n: nat, at: int, f: nat)
    requires g > 0 && f < n && forall row :: row in rows ==> |row.fields| == n
    requires BucketKey(at, g, []) in Spanned(g, rows)
    ensures MeanOf(Spanned(g, rows), n, BucketKey(at, g, []), f, SeqSum(rows, AmountAt(g, at, f)),
                   SeqSum(rows, AmountAt(g, at, n)))
  {
    WeightsPositive(map[], rows, g, n);
    SpannedHolds(g, rows, at, f);
    SpannedHolds(g, rows, at, n);
    MeanIs(Spanned(g, rows), n, BucketKey(at, g, []), f);
  }

  ghost predicate MeanOf(t: Table, n: nat, at: BucketKey, f: nat, sum: real, weight: real) {
    PositiveWeights(t, n) && at in t && weight > 0.0 && Field(Averages(t)[at], f) == sum / weight
  }

  lemma MeanIs(t: Table, n: nat, at: BucketKey, f: nat)
    requires PositiveWeights(t, n) && at in t && f < n
    ensures MeanOf(t, n, at, f, Value(t, at, f), Value(t, at, n))
  {}

  lemma SpannedBetween(g: int, rows: seq<DataRow>, n: nat, at: BucketKey, f: nat, lo: real, hi: real)
    requires g > 0 && f < n && forall row :: row in rows ==> |row.fields| == n
    requires forall row :: row in rows && Reaches(g, row, at) ==> lo <= OrZero(row.fields[f]) <= hi
    ensures Between(lo, hi, Value(Spanned(g, rows), at, n), Value(Spanned(g, rows), at, f))
  {
    var xs := RowEntries(rows);
    TableIsSum(SpanBy(g), map[], xs, at, f);
    TableIsSum(SpanBy(g), map[], xs, at, n);
    forall x | x in xs ensures Between(lo, hi, Contribution(SpanBy(g), x, at, n), Contribution(SpanBy(g), x, at, f)) {
      var i :| 0 <= i < |rows| && x == RowEntry(rows[i]);
      assert rows[i] in rows;
      RowBounded(g, rows[i], n, at, f, lo, hi);
    }
    SumsBounded(SpanBy(g), xs, n, at, f, lo, hi);
  }

  lemma RowAverageBounded(row: Row, n: nat, f: nat, lo: real, hi: real)
    requires |row| == n + 1 && f < n && row[n] > 0.0 && Between(lo, hi, row[n], row[f])
    ensures lo <= row[f] / row[n] <= hi
  {}
}
