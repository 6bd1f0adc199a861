/** The preprocessing the decision tree gets in classification_logic.py:
    `_discretize_column`, which replaces every number of a column by the
    label of one of four equal-width intervals between the column's minimum
    and maximum, and `preprocess_for_tree`, which does so for every
    attribute of a copy of the dataset. The label text "[lo-hi]" (bounds
    printed with two decimals) is the structured value Interval(lo, hi). */
module TreePreprocessing {
  import opened Data
  import opened Arith
  import opened Sums
  import opened Binning
  import opened Charts

  /** `num_bins=4` */
  const NumBins: nat := 4

  /** The numbers of a column lie between its minimum and maximum. */
  lemma CellsWithin(ds: Dataset, column: string)
    requires NumericColumn(ds, column) != []
    ensures forall i | 0 <= i < |ds| && IsNumberAt(ds[i], column) ::
      Min(NumericColumn(ds, column)) <= ds[i][column].x <= Max(NumericColumn(ds, column))
  {
    forall i | 0 <= i < |ds| && IsNumberAt(ds[i], column)
      ensures Min(NumericColumn(ds, column)) <= ds[i][column].x <= Max(NumericColumn(ds, column))
    {
      NumericCellIn(ds, column, i);
    }
  }

  /** One row after the loop body: a number becomes the interval of its
      bin, `[lo + b * width, lo + (b + 1) * width]`; any other cell stays. */
  function DiscretizedRow(row: Row, column: string, lo: real, hi: real, width: real): Row
    requires width > 0.0
    requires IsNumberAt(row, column) ==> lo <= row[column].x
  {
    if IsNumberAt(row, column) then
      var b := BinIndex(row[column].x, lo, hi, width, NumBins);
      row[column := Interval(lo + Times(b as real, width), lo + Times((b + 1) as real, width))]
    else row
  }

  function DiscretizedRows(ds: Dataset, column: string, lo: real, hi: real, width: real): (r: Dataset)
    requires width > 0.0
    requires forall i | 0 <= i < |ds| && IsNumberAt(ds[i], column) :: lo <= ds[i][column].x
    ensures |r| == |ds|
  {
    seq(|ds|, i requires 0 <= i < |ds| => DiscretizedRow(ds[i], column, lo, hi, width))
  }

  /** The dataset `_discretize_column` leaves behind: unchanged when the
      column holds no number or a single distinct one. (With distinct
      minimum and maximum the width is positive, so the source's branch for
      a zero width never runs.) */
  function Discretized(ds: Dataset, column: string): (r: Dataset)
    ensures |r| == |ds|
  {
    var values := NumericColumn(ds, column);
    if values == [] || Min(values) == Max(values) then ds
    else
      var width := BinWidth(values, NumBins);
      WidthPositive(Min(values), Max(values), NumBins, width);
      CellsWithin(ds, column);
      DiscretizedRows(ds, column, Min(values), Max(values), width)
  }

  method DiscretizeColumn(rows: array<Row>, column: string)
    modifies rows
    ensures rows[..] == Discretized(old(rows[..]), column)
  {
    var values := NumericColumn(rows[..], column);
    if values == [] { return; }
    var minVal, maxVal := Min(values), Max(values);
    if minVal == maxVal { return; }
    var binWidth := (maxVal - minVal) / NumBins as real;
    assert binWidth == BinWidth(values, NumBins);
    WidthPositive(minVal, maxVal, NumBins, binWidth);
    CellsWithin(rows[..], column);
    var r := 0;
    while r < rows.Length
      invariant 0 <= r <= rows.Length
      invariant forall j | 0 <= j < r :: rows[j] == DiscretizedRow(old(rows[j]), column, minVal, maxVal, binWidth)
      invariant forall j | r <= j < rows.Length :: rows[j] == old(rows[j])
    {
      DiscretizeCell(rows, r, column, minVal, maxVal, binWidth);
      r := r + 1;
    }
  }

  /** The loop body for row r: a number becomes the interval of its bin. */
  method DiscretizeCell(rows: array<Row>, r: nat, column: string, minVal: real, maxVal: real, binWidth: real)
    requires r < rows.Length && binWidth > 0.0
    requires IsNumberAt(rows[r], column) ==> minVal <= rows[r][column].x
    modifies rows
    ensures rows[r] == DiscretizedRow(old(rows[r]), column, minVal, maxVal, binWidth)
    ensures forall j | 0 <= j < rows.Length && j != r :: rows[j] == old(rows[j])
  {
    if IsNumberAt(rows[r], column) {
      var val := rows[r][column].x;
      var binIndex := BinIndex(val, minVal, maxVal, binWidth, NumBins);
      var lowerBound := minVal + Times(binIndex as real, binWidth);
      var upperBound := minVal + Times((binIndex + 1) as real, binWidth);
      rows[r] := rows[r][column := Interval(lowerBound, upperBound)];
    }
  }

  /** `preprocess_for_tree` as a fold: each attribute in turn discretized. */
  function Preprocessed(ds: Dataset, attrs: seq<string>): (r: Dataset)
    ensures |r| == |ds|
  {
    if attrs == [] then ds
    else Discretized(Preprocessed(ds, attrs[..|attrs| - 1]), attrs[|attrs| - 1])
  }

  /** `preprocess_for_tree`: a copy of the rows, then every attribute that
      holds a float discretized. Every number is a float, so the branch for
      integer columns finds no integers and leaves the column as it is. */
  method PreprocessForTree(ds: Dataset, attrs: seq<string>) returns (r: Dataset)
    ensures r == Preprocessed(ds, attrs)
  {
    var rows := new Row[|ds|](i requires 0 <= i < |ds| => ds[i]);
    assert rows[..] == ds;
    var k := 0;
    while k < |attrs|
      invariant 0 <= k <= |attrs|
      invariant rows[..] == Preprocessed(ds, attrs[..k])
    {
      var attr := attrs[k];
      if NumericColumn(rows[..], attr) != [] {
        DiscretizeColumn(rows, attr);
      }
      assert attrs[..k + 1][..k] == attrs[..k];
      k := k + 1;
    }
    assert attrs[..k] == attrs;
    r := rows[..];
  }

  // ---------------------------------------------------------------------
  // Properties

  /** The label of a number is one of the four intervals of width
      (max - min) / 4 between the column's minimum and maximum, and it holds
      the number: closed below, open above except for the maximum. */
  lemma DiscretizedCell(ds: Dataset, column: string, i: nat)
    requires i < |ds| && IsNumberAt(ds[i], column) && NumericColumn(ds, column) != []
    requires Min(NumericColumn(ds, column)) != Max(NumericColumn(ds, column))
    ensures var values := NumericColumn(ds, column);
      var cell := Discretized(ds, column)[i][column];
      var x := ds[i][column].x;
      && cell.Interval?
      && Min(values) <= cell.lo <= x <= cell.hi <= Max(values)
      && (x == cell.hi ==> x == Max(values))
      && cell.hi - cell.lo == (Max(values) - Min(values)) / NumBins as real
  {
    var values := NumericColumn(ds, column);
    var lo, hi := Min(values), Max(values);
    var width := BinWidth(values, NumBins);
    WidthPositive(lo, hi, NumBins, width);
    CellsWithin(ds, column);
    assert Discretized(ds, column)[i] == DiscretizedRow(ds[i], column, lo, hi, width);
    RowInterval(ds[i], column, lo, hi, width);
  }

  /** The interval of one number x in [lo, hi], for n bins of the given
      width spanning [lo, hi]. */
  lemma RowInterval(row: Row, column: string, lo: real, hi: real, width: real)
    requires IsNumberAt(row, column) && lo <= row[column].x <= hi
    requires width > 0.0 && Times(NumBins as real, width) == hi - lo
    ensures var cell := DiscretizedRow(row, column, lo, hi, width)[column];
      var x := row[column].x;
      && cell.Interval?
      && lo <= cell.lo <= x <= cell.hi <= hi
      && (x == cell.hi ==> x == hi)
      && cell.hi - cell.lo == width
  {
    var x := row[column].x;
    var b := BinIndex(x, lo, hi, width, NumBins);
    BinIndexBounds(x, lo, hi, width, NumBins);
    HistEdgesSpan(lo, hi, width, NumBins);
    var e := HistEdges(lo, width, NumBins);
    assert e[b] == lo + Times(b as real, width) && e[b + 1] == lo + Times((b + 1) as real, width);
    TimesSucc(b as real, width);
  }

  /** Discretizing touches only the numbers of its own column, keeps every
      row's columns, and changes nothing when the column holds no number or
      a single distinct one. */
  lemma DiscretizedFrame(ds: Dataset, column: string)
    ensures var r := Discretized(ds, column);
      && (forall i | 0 <= i < |ds| :: r[i].Keys == ds[i].Keys)
      && (forall i, k | 0 <= i < |ds| && k in ds[i] && (k != column || !IsNumberAt(ds[i], column)) :: r[i][k] == ds[i][k])
    ensures var values := NumericColumn(ds, column);
      values == [] || Min(values) == Max(values) ==> Discretized(ds, column) == ds
  {
  }

  /** After discretizing a column with two distinct numbers, no number is
      left in it. */
  lemma DiscretizedNoNumbers(ds: Dataset, column: string)
    requires NumericColumn(ds, column) != []
    requires Min(NumericColumn(ds, column)) != Max(NumericColumn(ds, column))
    ensures NumericColumn(Discretized(ds, column), column) == []
  {
    var r := Discretized(ds, column);
    forall i | 0 <= i < |r| ensures !IsNumberAt(r[i], column) {
      if IsNumberAt(ds[i], column) {
        DiscretizedCell(ds, column, i);
      }
    }
    NumericColumnEmpty(r, column);
  }

  /** Discretizing a column twice is discretizing it once. */
  lemma DiscretizeIdempotent(ds: Dataset, column: string)
    ensures Discretized(Discretized(ds, column), column) == Discretized(ds, column)
  {
    var values := NumericColumn(ds, column);
    if values != [] && Min(values) != Max(values) {
      DiscretizedNoNumbers(ds, column);
    }
  }

  /** A cell as `preprocess_for_tree` may leave it: as it was, or the
      interval label of the number it held. */
  predicate KeptOrLabelled(before: Value, after: Value) {
    after == before || (before.Num? && after.Interval? && after.lo <= before.x <= after.hi)
  }

  /** r has the rows of ds with the same columns, and differs from ds only
      in the cells of the columns attrs, each kept or labelled. */
  predicate LabelledFrom(ds: Dataset, r: Dataset, attrs: seq<string>) {
    && |r| == |ds|
    && (forall i | 0 <= i < |ds| :: r[i].Keys == ds[i].Keys)
    && (forall i, k | 0 <= i < |ds| && k in ds[i] && k !in attrs :: r[i][k] == ds[i][k])
    && (forall i, k | 0 <= i < |ds| && k in ds[i] && k in attrs :: KeptOrLabelled(ds[i][k], r[i][k]))
  }

  /** What `preprocess_for_tree` leaves in every cell: the same columns in
      every row; the cells of non-attribute columns as they were; the cells
      of attribute columns as they were, or an interval holding the number
      that was there. */
  lemma {:induction false} PreprocessedCells(ds: Dataset, attrs: seq<string>)
    ensures LabelledFrom(ds, Preprocessed(ds, attrs), attrs)
  {
    if attrs != [] {
      var init := attrs[..|attrs| - 1];
      PreprocessedCells(ds, init);
      assert attrs == init + [attrs[|attrs| - 1]];
      DiscretizeStep(ds, Preprocessed(ds, init), init, attrs[|attrs| - 1]);
    }
  }

  /** Discretizing one more column keeps the cells kept or labelled. */
  lemma DiscretizeStep(ds: Dataset, p: Dataset, attrs: seq<string>, a: string)
    requires LabelledFrom(ds, p, attrs)
    ensures LabelledFrom(ds, Discretized(p, a), attrs + [a])
  {
    var r := Discretized(p, a);
    DiscretizedFrame(p, a);
    assert forall k :: k in attrs + [a] <==> k in attrs || k == a;
    forall i | 0 <= i < |ds| && a in ds[i]
      ensures KeptOrLabelled(ds[i][a], r[i][a])
    {
      assert a in p[i].Keys;
      DiscretizedLabels(p, a, i);
      if a in attrs {
        assert KeptOrLabelled(ds[i][a], p[i][a]);
      } else {
        assert p[i][a] == ds[i][a];
      }
    }
  }

  /** Discretizing a column keeps or labels each of its cells. */
  lemma DiscretizedLabels(ds: Dataset, column: string, i: nat)
    requires i < |ds| && column in ds[i]
    ensures KeptOrLabelled(ds[i][column], Discretized(ds, column)[i][column])
  {
    DiscretizedFrame(ds, column);
    if IsNumberAt(ds[i], column) {
      NumericCellIn(ds, column, i);
      var values := NumericColumn(ds, column);
      if Min(values) != Max(values) {
        DiscretizedCell(ds, column, i);
      }
    }
  }
}
