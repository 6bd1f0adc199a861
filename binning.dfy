/** `discretize_by_binning` of processing_logic.py: equal-width binning of
    the numeric cells of one column, in place. Bin edges are
    min + i * width for i in 0..n, with the last edge replaced by max; a
    value goes to the first bin [edges[i], edges[i+1]] that holds it, except
    that a value on the upper edge of a bin other than the last goes to the
    next bin. The bin cell text is modelled as the structured value
    BinLabel(bin, lo, hi). */
module Binning {
  import opened Data
  import opened Arith
  import opened Sums
  import opened Normalization

  /** `(max_val - min_val) / num_bins` */
  function BinWidth(values: seq<real>, numBins: nat): real
    requires values != [] && numBins > 0
  {
    ValueRange(values) / numBins as real
  }

  /** `[lo + i * width for i in range(n + 1)]` with the last element then
      set to hi. */
  function Edges(lo: real, width: real, n: nat, hi: real): (e: seq<real>)
    ensures |e| == n + 1
  {
    seq(n + 1, i requires 0 <= i <= n => if i == n then hi else lo + Times(i as real, width))
  }

  /** The inner `for i in range(num_bins)` loop from bin `from` on: the first
      bin whose closed interval holds val, skipping a bin whose upper edge
      equals val unless it is the last. None when no bin holds val. */
  function BinFrom(edges: seq<real>, n: nat, val: real, from: nat): (b: Option<nat>)
    requires |edges| == n + 1 && from <= n
    ensures b.Some? ==> from <= b.value < n && edges[b.value] <= val <= edges[b.value + 1]
    decreases n - from
  {
    if from == n then None
    else if edges[from] <= val <= edges[from + 1] && !(from < n - 1 && val == edges[from + 1]) then Some(from)
    else BinFrom(edges, n, val, from + 1)
  }

  /** The row with its numeric `column` cell replaced by its bin label. */
  function BinnedRow(row: Row, column: string, edges: seq<real>, n: nat): Row
    requires |edges| == n + 1
  {
    if IsNumberAt(row, column) then
      match BinFrom(edges, n, row[column].x, 0)
      case Some(i) => row[column := BinLabel(i + 1, edges[i], edges[i + 1])]
      case None => row
    else row
  }

  function BinnedRows(ds: Dataset, column: string, edges: seq<real>, n: nat): (r: Dataset)
    requires |edges| == n + 1
    ensures |r| == |ds|
  {
    seq(|ds|, i requires 0 <= i < |ds| => BinnedRow(ds[i], column, edges, n))
  }

  /** Every numeric `column` cell replaced by the single cell of a constant
      column. */
  function PointBinned(ds: Dataset, column: string, at: real): (r: Dataset)
    ensures |r| == |ds|
  {
    seq(|ds|, i requires 0 <= i < |ds| =>
      if IsNumberAt(ds[i], column) then ds[i][column := PointBin(at)] else ds[i])
  }

  /** The dataset `discretize_by_binning` leaves behind. */
  function Binned(ds: Dataset, column: string, numBins: int): (r: Dataset)
    ensures |r| == |ds|
  {
    var values := NumericColumn(ds, column);
    if values == [] || numBins <= 0 then ds
    else if BinWidth(values, numBins) == 0.0 then PointBinned(ds, column, Min(values))
    else BinnedRows(ds, column, Edges(Min(values), BinWidth(values, numBins), numBins, Max(values)), numBins)
  }

  method DiscretizeByBinning(rows: array<Row>, column: string, numBins: int)
    modifies rows
    ensures rows[..] == Binned(old(rows[..]), column, numBins)
  {
    var values := NumericColumn(rows[..], column);
    if values == [] || numBins <= 0 { return; }
    var minVal, maxVal := Min(values), Max(values);
    var binWidth := (maxVal - minVal) / numBins as real;
    assert binWidth == BinWidth(values, numBins);
    if binWidth == 0.0 {
      LabelConstant(rows, column, minVal);
      return;
    }
    var bins := Edges(minVal, binWidth, numBins, maxVal);
    LabelBins(rows, column, bins, numBins);
  }

  /** The loop of the constant-column case. */
  method LabelConstant(rows: array<Row>, column: string, at: real)
    modifies rows
    ensures rows[..] == PointBinned(old(rows[..]), column, at)
  {
    var r := 0;
    while r < rows.Length
      invariant 0 <= r <= rows.Length
      invariant forall j | 0 <= j < r :: rows[j] == PointBinned(old(rows[..]), column, at)[j]
      invariant forall j | r <= j < rows.Length :: rows[j] == old(rows[j])
    {
      if IsNumberAt(rows[r], column) {
        rows[r] := rows[r][column := PointBin(at)];
      }
      r := r + 1;
    }
  }

  /** The outer loop over the rows. */
  method LabelBins(rows: array<Row>, column: string, bins: seq<real>, numBins: nat)
    requires |bins| == numBins + 1
    modifies rows
    ensures rows[..] == BinnedRows(old(rows[..]), column, bins, numBins)
  {
    var r := 0;
    while r < rows.Length
      invariant 0 <= r <= rows.Length
      invariant forall j | 0 <= j < r :: rows[j] == BinnedRow(old(rows[j]), column, bins, numBins)
      invariant forall j | r <= j < rows.Length :: rows[j] == old(rows[j])
    {
      if IsNumberAt(rows[r], column) {
        var bin := FindBin(bins, numBins, rows[r][column].x);
        if bin.Some? {
          var i := bin.value;
          rows[r] := rows[r][column := BinLabel(i + 1, bins[i], bins[i + 1])];
        }
      }
      r := r + 1;
    }
  }

  /** The inner `for i in range(num_bins)` loop, which breaks at the bin it
      labels the value with. */
  method FindBin(bins: seq<real>, numBins: nat, val: real) returns (bin: Option<nat>)
    requires |bins| == numBins + 1
    ensures bin == BinFrom(bins, numBins, val, 0)
  {
    var i := 0;
    while i < numBins
      invariant 0 <= i <= numBins
      invariant BinFrom(bins, numBins, val, i) == BinFrom(bins, numBins, val, 0)
    {
      if bins[i] <= val <= bins[i + 1] {
        if i < numBins - 1 && val == bins[i + 1] {
          i := i + 1;
          continue;
        }
        return Some(i);
      }
      i := i + 1;
    }
    return None;
  }

  /** With width > 0 and n * width == hi - lo, the edges strictly increase. */
  lemma EdgesIncreasing(lo: real, width: real, n: nat, hi: real)
    requires n > 0 && width > 0.0 && Times(n as real, width) == hi - lo
    ensures var e := Edges(lo, width, n, hi);
      e[0] == lo && e[n] == hi &&
      forall j, k | 0 <= j < k <= n :: e[j] < e[k]
  {
    var e := Edges(lo, width, n, hi);
    TimesZero(width);
    forall j, k | 0 <= j < k <= n ensures e[j] < e[k] {
      TimesStrict(j as real, k as real, width);
    }
  }

  /** On strictly increasing edges, a value between edges[from] and the last
      edge is placed, from bin `from` on, in the bin whose half-open interval
      [edges[b], edges[b+1]) holds it, or in the last bin when it equals the
      last edge. */
  lemma {:induction false} BinFromFinds(edges: seq<real>, n: nat, val: real, from: nat)
    requires |edges| == n + 1 && from < n
    requires forall j, k | 0 <= j < k <= n :: edges[j] < edges[k]
    requires edges[from] <= val <= edges[n]
    ensures var b := BinFrom(edges, n, val, from);
      b.Some? && from <= b.value < n &&
      edges[b.value] <= val &&
      (val < edges[b.value + 1] || (b.value == n - 1 && val == edges[n]))
    decreases n - from
  {
    if !(edges[from] <= val <= edges[from + 1] && !(from < n - 1 && val == edges[from + 1])) {
      BinFromFinds(edges, n, val, from + 1);
    }
  }

  lemma BinnedIsBinnedRows(ds: Dataset, column: string, n: nat, lo: real, hi: real, width: real)
    requires NumericColumn(ds, column) != [] && n > 0
    requires lo == Min(NumericColumn(ds, column)) && hi == Max(NumericColumn(ds, column))
    requires width == BinWidth(NumericColumn(ds, column), n) && width != 0.0
    ensures Binned(ds, column, n) == BinnedRows(ds, column, Edges(lo, width, n, hi), n)
  {
  }

  /** `cell` is the label of a bin b in 1..n of `edges` whose interval
      [edges[b-1], edges[b]) holds x, or the last bin when x is the last edge. */
  predicate IsBinOf(cell: Value, x: real, edges: seq<real>, n: nat)
    requires |edges| == n + 1
  {
    cell.BinLabel? && 1 <= cell.bin <= n &&
    cell.lo == edges[cell.bin - 1] && cell.hi == edges[cell.bin] &&
    edges[cell.bin - 1] <= x && (x < edges[cell.bin] || (cell.bin == n && x == edges[n]))
  }

  /** On strictly increasing edges a value has exactly one bin: no other
      bin's half-open interval holds it, the last edge belongs to the last
      bin, and a value on an interior edge belongs to the bin above it. */
  lemma BinOfUnique(cell: Value, x: real, edges: seq<real>, n: nat)
    requires |edges| == n + 1
    requires forall j, k | 0 <= j < k <= n :: edges[j] < edges[k]
    requires IsBinOf(cell, x, edges, n)
    ensures forall b | 1 <= b <= n && edges[b - 1] <= x < edges[b] :: b == cell.bin
    ensures x == edges[n] ==> cell.bin == n
    ensures forall j | 1 <= j < n && x == edges[j] :: cell.bin == j + 1
  {
    var b0 := cell.bin;
    forall j | 1 <= j < n && x == edges[j] ensures b0 == j + 1 {
      assert edges[j] < edges[j + 1];
    }
  }

  /** The label a numeric cell gets, on strictly increasing edges that span it. */
  lemma BinnedRowsCell(ds: Dataset, column: string, edges: seq<real>, n: nat, i: nat)
    requires |edges| == n + 1 && n > 0 && i < |ds|
    requires forall j, k | 0 <= j < k <= n :: edges[j] < edges[k]
    requires IsNumberAt(ds[i], column) && edges[0] <= ds[i][column].x <= edges[n]
    ensures var r := BinnedRows(ds, column, edges, n);
      r[i].Keys == ds[i].Keys && IsBinOf(r[i][column], ds[i][column].x, edges, n)
  {
    BinFromFinds(edges, n, ds[i][column].x, 0);
  }

  /** Binning with the edges lo + i * width, for n * width == hi - lo and
      width > 0: the edges strictly increase from lo to hi, and a numeric
      cell in [lo, hi] gets the label of a bin that holds it. */
  lemma BinnedRowsEdges(ds: Dataset, column: string, n: nat, lo: real, hi: real, width: real, i: nat)
    requires n > 0 && width > 0.0 && Times(n as real, width) == hi - lo
    requires i < |ds| && IsNumberAt(ds[i], column) && lo <= ds[i][column].x <= hi
    ensures var e := Edges(lo, width, n, hi);
      e[0] == lo && e[n] == hi && (forall j, k | 0 <= j < k <= n :: e[j] < e[k]) &&
      IsBinOf(BinnedRows(ds, column, e, n)[i][column], ds[i][column].x, e, n)
    ensures ds[i][column].x == hi ==> BinnedRows(ds, column, Edges(lo, width, n, hi), n)[i][column].bin == n
  {
    var e := Edges(lo, width, n, hi);
    EdgesIncreasing(lo, width, n, hi);
    BinnedRowsCell(ds, column, e, n, i);
    BinOfUnique(BinnedRows(ds, column, e, n)[i][column], ds[i][column].x, e, n);
  }

  /** Equal-width binning of a column whose numeric cells are not all equal:
      the edges strictly increase from min to max, and every numeric cell
      gets the label of a bin 1..num_bins that holds it (unique by
      BinOfUnique); the maximum goes to the last bin. */
  lemma BinningLabels(ds: Dataset, column: string, n: nat, lo: real, hi: real, width: real, i: nat)
    requires NumericColumn(ds, column) != [] && n > 0
    requires lo == Min(NumericColumn(ds, column)) && hi == Max(NumericColumn(ds, column)) && lo != hi
    requires width == BinWidth(NumericColumn(ds, column), n)
    requires i < |ds| && IsNumberAt(ds[i], column)
    ensures var e := Edges(lo, width, n, hi);
      e[0] == lo && e[n] == hi && (forall j, k | 0 <= j < k <= n :: e[j] < e[k]) &&
      IsBinOf(Binned(ds, column, n)[i][column], ds[i][column].x, e, n)
    ensures ds[i][column].x == hi ==> Binned(ds, column, n)[i][column].bin == n
  {
    var values := NumericColumn(ds, column);
    assert lo <= hi by { assert lo in values; }
    WidthPositive(lo, hi, n, width);
    BinnedIsBinnedRows(ds, column, n, lo, hi, width);
    NumericCellIn(ds, column, i);
    BinnedRowsEdges(ds, column, n, lo, hi, width, i);
  }

  /** For lo < hi the width (hi - lo) / n is positive and n of them span hi - lo. */
  lemma WidthPositive(lo: real, hi: real, n: nat, width: real)
    requires lo < hi && n > 0 && width == (hi - lo) / n as real
    ensures width > 0.0 && Times(n as real, width) == hi - lo
  {
    QuotientTimes(hi - lo, n as real);
    QuotientMonotone(0.0, hi - lo, n as real);
  }

  /** A constant column: every numeric cell gets the single label "Bin 1"
      of its value. */
  lemma BinningConstant(ds: Dataset, column: string, n: nat, lo: real)
    requires NumericColumn(ds, column) != [] && n > 0
    requires lo == Min(NumericColumn(ds, column)) && lo == Max(NumericColumn(ds, column))
    ensures var r := Binned(ds, column, n);
      |r| == |ds| &&
      forall i | 0 <= i < |ds| && IsNumberAt(ds[i], column) :: r[i][column] == PointBin(lo) && ds[i][column].x == lo
  {
    var values := NumericColumn(ds, column);
    assert ValueRange(values) == 0.0;
    assert BinWidth(values, n) == 0.0;
    assert Binned(ds, column, n) == PointBinned(ds, column, lo);
    forall i | 0 <= i < |ds| && IsNumberAt(ds[i], column) ensures ds[i][column].x == lo {
      NumericCellIn(ds, column, i);
    }
  }

  /** Binning changes nothing when num_bins <= 0 or the column has no numeric
      cell, and otherwise changes only numeric cells of the column. */
  lemma BinningFrame(ds: Dataset, column: string, numBins: int)
    ensures var r := Binned(ds, column, numBins);
      |r| == |ds| &&
      (forall i | 0 <= i < |ds| :: r[i].Keys == ds[i].Keys) &&
      (forall i, k | 0 <= i < |ds| && k in ds[i] && (k != column || !IsNumberAt(ds[i], column)) :: r[i][k] == ds[i][k])
    ensures NumericColumn(ds, column) == [] || numBins <= 0 ==> Binned(ds, column, numBins) == ds
  {
  }
}
