/** The chart data of processing_logic.py: `prepare_histogram_data`, which
    counts the numbers of a column in equal-width bins, and
    `prepare_scatter_plot_data`, which pairs up two numeric columns.
    Bin labels are formatted with two decimals in Python; here they are the
    structured values RangeLabel(lo, hi) and PointLabel(at). */
module Charts {
  import opened Data
  import opened Arith
  import opened Sums
  import opened Tally
  import opened Normalization
  import opened Binning

  // ---------------------------------------------------------------------
  // prepare_histogram_data

  datatype HistLabel = RangeLabel(lo: real, hi: real) | PointLabel(at: real)

  /** The returned dict `{'labels': ..., 'counts': ...}`. */
  datatype Histogram = Histogram(labels: seq<HistLabel>, counts: seq<int>)

  /** `bins = [min_val + i * bin_width for i in range(num_bins + 1)]` */
  function HistEdges(lo: real, width: real, n: nat): (e: seq<real>)
    ensures |e| == n + 1
  {
    seq(n + 1, i requires 0 <= i <= n => lo + Times(i as real, width))
  }

  /** `[f'[{bins[i]:.2f}-{bins[i+1]:.2f}]' for i in range(num_bins)]` */
  function RangeLabels(edges: seq<real>, n: nat): (r: seq<HistLabel>)
    requires |edges| == n + 1
    ensures |r| == n
  {
    seq(n, i requires 0 <= i < n => RangeLabel(edges[i], edges[i + 1]))
  }

  /** The bin a value is counted in: `min(int((val - min_val) / bin_width),
      num_bins - 1)`, or the last bin for the maximum. */
  function BinIndex(val: real, lo: real, hi: real, width: real, n: nat): (b: nat)
    requires n > 0 && width > 0.0 && lo <= val
    ensures b < n
  {
    QuotientMonotone(0.0, val - lo, width);
    var i := Trunc((val - lo) / width);
    var capped := if i < n - 1 then i else n - 1;
    if val == hi then n - 1 else capped
  }

  /** The bin of every value, in order. */
  function BinIndices(values: seq<real>, lo: real, hi: real, width: real, n: nat): (r: seq<nat>)
    requires n > 0 && width > 0.0
    requires forall v | v in values :: lo <= v
    ensures |r| == |values|
  {
    seq(|values|, k requires 0 <= k < |values| =>
      assert values[k] in values; BinIndex(values[k], lo, hi, width, n))
  }

  /** 0, 1, ..., n - 1 */
  function Range(n: nat): (r: seq<nat>)
    ensures |r| == n
  {
    seq(n, b requires 0 <= b < n => b)
  }

  /** The histogram `prepare_histogram_data` returns. */
  function HistogramOf(ds: Dataset, column: string, numBins: int): Histogram {
    var values := NumericColumn(ds, column);
    if values == [] || numBins <= 0 then Histogram([], [])
    else if Min(values) == Max(values) then Histogram([PointLabel(Min(values))], [|values|])
    else
      var n := numBins as nat;
      var width := BinWidth(values, n);
      WidthPositive(Min(values), Max(values), n, width);
      Histogram(RangeLabels(HistEdges(Min(values), width, n), n),
                Counts(BinIndices(values, Min(values), Max(values), width, n), Range(n)))
  }

  method PrepareHistogramData(ds: Dataset, column: string, numBins: int) returns (h: Histogram)
    ensures h == HistogramOf(ds, column, numBins)
  {
    var values := NumericColumn(ds, column);
    if values == [] || numBins <= 0 {
      return Histogram([], []);
    }
    var minVal, maxVal := Min(values), Max(values);
    if minVal == maxVal {
      return Histogram([PointLabel(minVal)], [|values|]);
    }
    var n := numBins as nat;
    var binWidth := (maxVal - minVal) / n as real;
    assert binWidth == BinWidth(values, n);
    WidthPositive(minVal, maxVal, n, binWidth);
    var bins := HistEdges(minVal, binWidth, n);
    var labels := RangeLabels(bins, n);
    var counts := CountBins(values, minVal, maxVal, binWidth, n);
    return Histogram(labels, counts);
  }

  /** The counting loop: `counts[bin_index] += 1` for every value, on the
      list `[0] * num_bins`. */
  method CountBins(values: seq<real>, minVal: real, maxVal: real, binWidth: real, n: nat) returns (counts: seq<int>)
    requires n > 0 && binWidth > 0.0
    requires forall v | v in values :: minVal <= v
    ensures counts == Counts(BinIndices(values, minVal, maxVal, binWidth, n), Range(n))
  {
    ghost var indices := BinIndices(values, minVal, maxVal, binWidth, n);
    counts := seq(n, b requires 0 <= b < n => 0);
    assert counts == Counts([], Range(n));
    var k := 0;
    while k < |values|
      invariant 0 <= k <= |values|
      invariant counts == Counts(indices[..k], Range(n))
    {
      var val := values[k];
      assert val in values;
      var binIndex := BinIndex(val, minVal, maxVal, binWidth, n);
      CountStep(indices, k, n);
      counts := counts[binIndex := counts[binIndex] + 1];
      k := k + 1;
    }
    assert indices[..k] == indices;
  }

  /** Counting one more index adds one to its own tally only. */
  lemma CountStep(indices: seq<nat>, k: nat, n: nat)
    requires k < |indices| && indices[k] < n
    ensures var c := Counts(indices[..k], Range(n));
      Counts(indices[..k + 1], Range(n)) == c[indices[k] := c[indices[k]] + 1]
  {
    assert indices[..k + 1][..k] == indices[..k];
    var c := Counts(indices[..k], Range(n));
    var c' := Counts(indices[..k + 1], Range(n));
    forall b | 0 <= b < n ensures c'[b] == c[indices[k] := c[indices[k]] + 1][b] {
      assert Range(n)[b] == b;
    }
  }

  /** With n * width == hi - lo and width > 0, a value in [lo, hi] lies in
      the interval [edges[b], edges[b+1]) of the bin b that counts it, or is
      the maximum and counted in the last bin. */
  lemma BinIndexBounds(val: real, lo: real, hi: real, width: real, n: nat)
    requires n > 0 && width > 0.0 && Times(n as real, width) == hi - lo
    requires lo <= val <= hi
    ensures var b := BinIndex(val, lo, hi, width, n);
      var e := HistEdges(lo, width, n);
      e[b] <= val && (val < e[b + 1] || (b == n - 1 && val == hi))
  {
    var q := (val - lo) / width;
    QuotientMonotone(0.0, val - lo, width);
    QuotientTimes(val - lo, width);
    var i := Trunc(q);
    assert i as real <= q < i as real + 1.0;
    var b := BinIndex(val, lo, hi, width, n);
    var e := HistEdges(lo, width, n);
    if val != hi {
      if i < n - 1 {
        MonotoneProduct(i as real, q, width);
        TimesStrict(q, i as real + 1.0, width);
      } else {
        MonotoneProduct((n - 1) as real, q, width);
      }
    } else {
      MonotoneProduct((n - 1) as real, n as real, width);
    }
  }

  /** Both ends of the histogram edges: they run from the minimum to the
      maximum, in increasing order. */
  lemma HistEdgesSpan(lo: real, hi: real, width: real, n: nat)
    requires n > 0 && width > 0.0 && Times(n as real, width) == hi - lo
    ensures HistEdges(lo, width, n) == Edges(lo, width, n, hi)
    ensures var e := HistEdges(lo, width, n);
      e[0] == lo && e[n] == hi && forall j, k | 0 <= j < k <= n :: e[j] < e[k]
  {
    EdgesIncreasing(lo, width, n, hi);
  }

  /** Every numeric cell is counted exactly once: the counts add up to the
      number of numeric cells, whenever num_bins > 0. */
  lemma HistogramTotal(ds: Dataset, column: string, numBins: int)
    requires numBins > 0
    ensures var h := HistogramOf(ds, column, numBins);
      |h.labels| == |h.counts| && SumInt(h.counts) == |NumericColumn(ds, column)|
  {
    var values := NumericColumn(ds, column);
    if values != [] && Min(values) != Max(values) {
      var n := numBins as nat;
      var width := BinWidth(values, n);
      WidthPositive(Min(values), Max(values), n, width);
      IndicesInRange(BinIndices(values, Min(values), Max(values), width, n), n);
      SumCounts(BinIndices(values, Min(values), Max(values), width, n), Range(n));
    }
  }

  lemma IndicesInRange(indices: seq<nat>, n: nat)
    requires forall b | b in indices :: b < n
    ensures NoDuplicates(Range(n))
    ensures forall b | b in indices :: b in Range(n)
  {
    forall b | b in indices ensures b in Range(n) {
      assert Range(n)[b] == b;
    }
  }

  /** A column of several distinct numbers gets num_bins contiguous labels
      from its minimum to its maximum. */
  lemma HistogramLabels(ds: Dataset, column: string, numBins: int, lo: real, hi: real)
    requires numBins > 0 && NumericColumn(ds, column) != []
    requires lo == Min(NumericColumn(ds, column)) && hi == Max(NumericColumn(ds, column)) && lo != hi
    ensures var h := HistogramOf(ds, column, numBins);
      |h.labels| == numBins &&
      (forall b | 0 <= b < numBins :: h.labels[b].RangeLabel? && h.labels[b].lo < h.labels[b].hi) &&
      h.labels[0].lo == lo && h.labels[numBins - 1].hi == hi &&
      forall b | 0 <= b < numBins - 1 :: h.labels[b].hi == h.labels[b + 1].lo
  {
    var values := NumericColumn(ds, column);
    var n := numBins as nat;
    var width := BinWidth(values, n);
    WidthPositive(lo, hi, n, width);
    HistEdgesSpan(lo, hi, width, n);
  }

  /** A column whose numbers are all equal gets one label and one count. */
  lemma HistogramConstant(ds: Dataset, column: string, numBins: int, lo: real)
    requires numBins > 0 && NumericColumn(ds, column) != []
    requires lo == Min(NumericColumn(ds, column)) && lo == Max(NumericColumn(ds, column))
    ensures HistogramOf(ds, column, numBins) == Histogram([PointLabel(lo)], [|NumericColumn(ds, column)|])
  {
  }

  /** The histogram and `discretize_by_binning` agree: the label binning
      writes into a numeric cell names bin b + 1 exactly when the histogram
      counts that cell's value in bin b. */
  lemma HistogramMatchesBinning(ds: Dataset, column: string, n: nat, lo: real, hi: real, width: real, i: nat)
    requires NumericColumn(ds, column) != [] && n > 0
    requires lo == Min(NumericColumn(ds, column)) && hi == Max(NumericColumn(ds, column)) && lo != hi
    requires width == BinWidth(NumericColumn(ds, column), n)
    requires i < |ds| && IsNumberAt(ds[i], column)
    ensures lo <= ds[i][column].x && width > 0.0 && column in Binned(ds, column, n)[i]
    ensures Binned(ds, column, n)[i][column].BinLabel?
    ensures Binned(ds, column, n)[i][column].bin == BinIndex(ds[i][column].x, lo, hi, width, n) + 1
  {
    var values := NumericColumn(ds, column);
    var x := ds[i][column].x;
    NumericCellIn(ds, column, i);
    assert lo <= hi by { assert lo in values; }
    WidthPositive(lo, hi, n, width);
    BinningLabels(ds, column, n, lo, hi, width, i);
    var e := Edges(lo, width, n, hi);
    var cell := Binned(ds, column, n)[i][column];
    BinOfUnique(cell, x, e, n);
    HistEdgesSpan(lo, hi, width, n);
    BinIndexBounds(x, lo, hi, width, n);
  }

  // ---------------------------------------------------------------------
  // prepare_scatter_plot_data

  /** One `{'x': ..., 'y': ...}` point. */
  datatype Point = Point(x: real, y: real)

  /** The rows whose cells in both columns are numbers, as points, in row order. */
  function ScatterPoints(ds: Dataset, c1: string, c2: string): (r: seq<Point>)
    ensures |r| <= |ds|
  {
    if ds == [] then []
    else ScatterPoints(ds[..|ds| - 1], c1, c2) + PointOf(ds[|ds| - 1], c1, c2)
  }

  /** The point of one row, as a list of zero or one point. */
  function PointOf(row: Row, c1: string, c2: string): seq<Point> {
    if IsNumberAt(row, c1) && IsNumberAt(row, c2) then [Point(row[c1].x, row[c2].x)] else []
  }

  /** Every point comes from a row with numbers in both columns, and every
      such row gives its point. */
  lemma {:induction false} ScatterPointsFrom(ds: Dataset, c1: string, c2: string)
    ensures forall p | p in ScatterPoints(ds, c1, c2) :: exists i | 0 <= i < |ds| ::
      IsNumberAt(ds[i], c1) && IsNumberAt(ds[i], c2) && p == Point(ds[i][c1].x, ds[i][c2].x)
    ensures forall i | 0 <= i < |ds| && IsNumberAt(ds[i], c1) && IsNumberAt(ds[i], c2) ::
      Point(ds[i][c1].x, ds[i][c2].x) in ScatterPoints(ds, c1, c2)
  {
    if ds != [] {
      var init := ds[..|ds| - 1];
      var last := ds[|ds| - 1];
      ScatterPointsFrom(init, c1, c2);
      assert forall i | 0 <= i < |init| :: init[i] == ds[i];
      forall p | p in ScatterPoints(ds, c1, c2)
        ensures exists i | 0 <= i < |ds| ::
          IsNumberAt(ds[i], c1) && IsNumberAt(ds[i], c2) && p == Point(ds[i][c1].x, ds[i][c2].x)
      {
        if p !in ScatterPoints(init, c1, c2) {
          assert p in PointOf(last, c1, c2);
          assert ds[|ds| - 1] == last;
        }
      }
    }
  }

  /** Points keep the order of their rows. */
  lemma {:induction false} ScatterAppend(a: Dataset, b: Dataset, c1: string, c2: string)
    ensures ScatterPoints(a + b, c1, c2) == ScatterPoints(a, c1, c2) + ScatterPoints(b, c1, c2)
  {
    if b == [] {
      assert a + b == a;
    } else {
      assert (a + b)[..|a + b| - 1] == a + b[..|b| - 1];
      assert (a + b)[|a + b| - 1] == b[|b| - 1];
      ScatterAppend(a, b[..|b| - 1], c1, c2);
    }
  }

  function Xs(ps: seq<Point>): (r: seq<real>)
    ensures |r| == |ps|
  {
    seq(|ps|, k requires 0 <= k < |ps| => ps[k].x)
  }

  function Ys(ps: seq<Point>): (r: seq<real>)
    ensures |r| == |ps|
  {
    seq(|ps|, k requires 0 <= k < |ps| => ps[k].y)
  }

  /** When every row that has a number in one column has one in the other,
      the points' coordinates are exactly the two numeric columns, so the
      chart shows the pairs the correlation is computed over. */
  lemma {:induction false} ScatterCoordinates(ds: Dataset, c1: string, c2: string)
    requires forall i | 0 <= i < |ds| :: IsNumberAt(ds[i], c1) <==> IsNumberAt(ds[i], c2)
    ensures Xs(ScatterPoints(ds, c1, c2)) == NumericColumn(ds, c1)
    ensures Ys(ScatterPoints(ds, c1, c2)) == NumericColumn(ds, c2)
  {
    if ds != [] {
      var init := ds[..|ds| - 1];
      assert forall i | 0 <= i < |init| :: init[i] == ds[i];
      ScatterCoordinates(init, c1, c2);
      var p := ScatterPoints(init, c1, c2);
      var tail := PointOf(ds[|ds| - 1], c1, c2);
      assert Xs(p + tail) == Xs(p) + Xs(tail);
      assert Ys(p + tail) == Ys(p) + Ys(tail);
    }
  }
}
