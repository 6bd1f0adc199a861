/** The three normalisations of processing_logic.py: min-max, z-score and
    decimal scaling. The Python functions overwrite `row[column]` inside a
    loop over the list of rows; here the rows sit in an array that the
    methods update the same way, and each method is proved equal to a
    function of the old rows. The properties of the normalisations are
    lemmas about those functions. */
module Normalization {
  import opened Data
  import opened Arith
  import opened Sums
  import opened Tally
  import opened Statistics

  // ---------------------------------------------------------------------
  // Rescaling the numeric cells of a column

  /** The row with its numeric `column` cell x replaced by (x - shift) / divisor. */
  function RescaledRow(row: Row, column: string, shift: real, divisor: real): Row
    requires divisor != 0.0
  {
    if IsNumberAt(row, column) then row[column := Num((row[column].x - shift) / divisor)] else row
  }

  function Rescaled(ds: Dataset, column: string, shift: real, divisor: real): (r: Dataset)
    requires divisor != 0.0
    ensures |r| == |ds|
  {
    seq(|ds|, i requires 0 <= i < |ds| => RescaledRow(ds[i], column, shift, divisor))
  }

  /** Rescaling changes only numeric cells of `column`, which stay numeric. */
  lemma RescaledFrame(ds: Dataset, column: string, shift: real, divisor: real, i: nat)
    requires divisor != 0.0 && i < |ds|
    ensures var r := Rescaled(ds, column, shift, divisor);
      r[i].Keys == ds[i].Keys &&
      (IsNumberAt(ds[i], column) <==> IsNumberAt(r[i], column)) &&
      (!IsNumberAt(ds[i], column) ==> r[i] == ds[i]) &&
      (forall k | k in ds[i] && k != column :: r[i][k] == ds[i][k]) &&
      (IsNumberAt(ds[i], column) ==> r[i][column].x == (ds[i][column].x - shift) / divisor)
  {
  }

  /** The loop shared by the three normalisations: `for row in dataset: if
      isinstance(row.get(column), (int, float)): row[column] = ...`. */
  method RescaleColumn(rows: array<Row>, column: string, shift: real, divisor: real)
    requires divisor != 0.0
    modifies rows
    ensures rows[..] == Rescaled(old(rows[..]), column, shift, divisor)
  {
    var i := 0;
    while i < rows.Length
      invariant 0 <= i <= rows.Length
      invariant forall j | 0 <= j < i :: rows[j] == RescaledRow(old(rows[j]), column, shift, divisor)
      invariant forall j | i <= j < rows.Length :: rows[j] == old(rows[j])
    {
      if IsNumberAt(rows[i], column) {
        rows[i] := rows[i][column := Num((rows[i][column].x - shift) / divisor)];
      }
      i := i + 1;
    }
  }

  /** The numeric cells of a rescaled column are the rescaled numeric cells. */
  lemma {:induction false} RescaledColumn(ds: Dataset, column: string, shift: real, divisor: real)
    requires divisor != 0.0
    ensures NumericColumn(Rescaled(ds, column, shift, divisor), column)
         == Deviations(NumericColumn(ds, column), shift, divisor)
  {
    if ds != [] {
      var init := ds[..|ds| - 1];
      var last := ds[|ds| - 1];
      RescaledSnoc(init, last, column, shift, divisor);
      assert ds == init + [last];
      NumericColumnSnoc(Rescaled(init, column, shift, divisor), RescaledRow(last, column, shift, divisor), column);
      RescaledColumn(init, column, shift, divisor);
      DeviationsAppend(NumericColumn(init, column), NumericCell(last, column), shift, divisor);
    }
  }

  lemma RescaledSnoc(ds: Dataset, row: Row, column: string, shift: real, divisor: real)
    requires divisor != 0.0
    ensures Rescaled(ds + [row], column, shift, divisor)
         == Rescaled(ds, column, shift, divisor) + [RescaledRow(row, column, shift, divisor)]
  {
  }

  lemma DeviationsAppend(a: seq<real>, b: seq<real>, shift: real, divisor: real)
    requires divisor != 0.0
    ensures Deviations(a + b, shift, divisor) == Deviations(a, shift, divisor) + Deviations(b, shift, divisor)
  {
  }

  /** `[(x - shift) / divisor for x in vs]` */
  function Deviations(vs: seq<real>, shift: real, divisor: real): (r: seq<real>)
    requires divisor != 0.0
    ensures |r| == |vs|
    ensures forall i | 0 <= i < |vs| :: r[i] == (vs[i] - shift) / divisor
  {
    seq(|vs|, i requires 0 <= i < |vs| => (vs[i] - shift) / divisor)
  }

  /** The rescaled values sum to (sum - n * shift) / divisor. */
  lemma {:induction false} SumDeviations(vs: seq<real>, shift: real, divisor: real)
    requires divisor != 0.0
    ensures Sum(Deviations(vs, shift, divisor)) == (Sum(vs) - Times(|vs| as real, shift)) / divisor
  {
    if vs == [] {
      TimesZero(shift);
    } else {
      var init := vs[..|vs| - 1];
      var last := vs[|vs| - 1];
      assert Deviations(vs, shift, divisor)[..|vs| - 1] == Deviations(init, shift, divisor);
      SumDeviations(init, shift, divisor);
      QuotientSum(Sum(init) - Times(|init| as real, shift), last - shift, divisor);
      TimesSucc(|init| as real, shift);
    }
  }

  // ---------------------------------------------------------------------
  // normalize_min_max

  /** `max(values) - min(values)` */
  function ValueRange(values: seq<real>): (d: real)
    requires values != []
    ensures d >= 0.0
  {
    assert Min(values) in values;
    Max(values) - Min(values)
  }

  /** The dataset `normalize_min_max` leaves behind: unchanged when the
      column has no numeric cell or all of them are equal, otherwise every
      numeric cell x becomes (x - min) / (max - min). */
  function MinMaxNormalized(ds: Dataset, column: string): Dataset {
    var values := NumericColumn(ds, column);
    if values == [] || ValueRange(values) == 0.0 then ds
    else Rescaled(ds, column, Min(values), ValueRange(values))
  }

  method NormalizeMinMax(rows: array<Row>, column: string)
    modifies rows
    ensures rows[..] == MinMaxNormalized(old(rows[..]), column)
  {
    var values := NumericColumn(rows[..], column);
    if values == [] { return; }
    var minVal, maxVal := Min(values), Max(values);
    var range := maxVal - minVal;
    assert range == ValueRange(values);
    if range == 0.0 { return; }
    RescaleColumn(rows, column, minVal, range);
  }

  /** Rescaling by [lo, hi] sends a value of [lo, hi] into [0, 1], lo to 0
      and hi to 1. */
  lemma RescaledUnit(ds: Dataset, column: string, lo: real, hi: real, i: nat)
    requires i < |ds| && lo < hi
    requires IsNumberAt(ds[i], column) ==> lo <= ds[i][column].x <= hi
    ensures var r := Rescaled(ds, column, lo, hi - lo);
      IsNumberAt(ds[i], column) ==>
        0.0 <= r[i][column].x <= 1.0 &&
        (ds[i][column].x == lo ==> r[i][column] == Num(0.0)) &&
        (ds[i][column].x == hi ==> r[i][column] == Num(1.0))
  {
    RescaledFrame(ds, column, lo, hi - lo, i);
    if IsNumberAt(ds[i], column) {
      UnitQuotient(ds[i][column].x - lo, hi - lo);
    }
  }

  /** Min-max normalisation puts every numeric cell of the column in [0, 1]
      and sends the minimum to 0 and the maximum to 1. */
  lemma MinMaxUnitInterval(ds: Dataset, column: string, lo: real, hi: real)
    requires NumericColumn(ds, column) != []
    requires lo == Min(NumericColumn(ds, column)) && hi == Max(NumericColumn(ds, column))
    requires lo != hi
    ensures var r := MinMaxNormalized(ds, column);
      forall i | 0 <= i < |r| && IsNumberAt(r[i], column) :: 0.0 <= r[i][column].x <= 1.0
    ensures var r := MinMaxNormalized(ds, column);
      forall i | 0 <= i < |ds| && IsNumberAt(ds[i], column) ::
        (ds[i][column].x == lo ==> r[i][column] == Num(0.0)) &&
        (ds[i][column].x == hi ==> r[i][column] == Num(1.0))
  {
    forall i | 0 <= i < |ds| {
      MinMaxCell(ds, column, i, lo, hi);
    }
  }

  /** Min-max normalisation keeps the order of the numeric cells. */
  lemma MinMaxMonotone(ds: Dataset, column: string, lo: real, hi: real, i: nat, j: nat)
    requires NumericColumn(ds, column) != []
    requires lo == Min(NumericColumn(ds, column)) && hi == Max(NumericColumn(ds, column))
    requires lo != hi
    requires i < |ds| && j < |ds| && IsNumberAt(ds[i], column) && IsNumberAt(ds[j], column)
    ensures var r := MinMaxNormalized(ds, column);
      ds[i][column].x <= ds[j][column].x <==> r[i][column].x <= r[j][column].x
  {
    MinMaxIsRescaling(ds, column, lo, hi);
    assert lo <= hi by { assert lo in NumericColumn(ds, column); }
    RescaledMonotone(ds, column, lo, hi - lo, i, j);
  }

  /** Rescaling by a positive divisor keeps the order of the numeric cells. */
  lemma RescaledMonotone(ds: Dataset, column: string, shift: real, divisor: real, i: nat, j: nat)
    requires divisor > 0.0
    requires i < |ds| && j < |ds| && IsNumberAt(ds[i], column) && IsNumberAt(ds[j], column)
    ensures var r := Rescaled(ds, column, shift, divisor);
      ds[i][column].x <= ds[j][column].x <==> r[i][column].x <= r[j][column].x
  {
    RescaledFrame(ds, column, shift, divisor, i);
    RescaledFrame(ds, column, shift, divisor, j);
    RescaleOrder(ds[i][column].x, ds[j][column].x, shift, divisor);
  }

  /** Rescaling by a positive divisor keeps the order of two values. */
  lemma RescaleOrder(x: real, y: real, shift: real, divisor: real)
    requires divisor > 0.0
    ensures x <= y <==> (x - shift) / divisor <= (y - shift) / divisor
  {
    if x <= y {
      QuotientMonotone(x - shift, y - shift, divisor);
    } else {
      QuotientMonotone(y - shift, x - shift, divisor);
    }
  }

  lemma MinMaxIsRescaling(ds: Dataset, column: string, lo: real, hi: real)
    requires NumericColumn(ds, column) != []
    requires lo == Min(NumericColumn(ds, column)) && hi == Max(NumericColumn(ds, column)) && lo != hi
    ensures MinMaxNormalized(ds, column) == Rescaled(ds, column, lo, hi - lo)
  {
    assert hi - lo == ValueRange(NumericColumn(ds, column));
  }

  /** What min-max normalisation does to the cell of row i. */
  lemma MinMaxCell(ds: Dataset, column: string, i: nat, lo: real, hi: real)
    requires i < |ds|
    requires NumericColumn(ds, column) != []
    requires lo == Min(NumericColumn(ds, column)) && hi == Max(NumericColumn(ds, column)) && lo != hi
    ensures var r := MinMaxNormalized(ds, column);
      |r| == |ds| &&
      (IsNumberAt(ds[i], column) <==> IsNumberAt(r[i], column)) &&
      (IsNumberAt(ds[i], column) ==>
        lo <= ds[i][column].x <= hi &&
        r[i][column].x == (ds[i][column].x - lo) / (hi - lo) &&
        0.0 <= r[i][column].x <= 1.0 &&
        (ds[i][column].x == lo ==> r[i][column] == Num(0.0)) &&
        (ds[i][column].x == hi ==> r[i][column] == Num(1.0)))
  {
    MinMaxIsRescaling(ds, column, lo, hi);
    assert lo <= hi by { assert lo in NumericColumn(ds, column); }
    RescaledFrame(ds, column, lo, hi - lo, i);
    if IsNumberAt(ds[i], column) {
      NumericCellIn(ds, column, i);
    }
    RescaledUnit(ds, column, lo, hi, i);
  }

  /** Min-max normalisation keeps the row count, changes only numeric cells
      of the column (which stay numeric), and changes nothing when the column
      has no numeric cell or a single distinct value. */
  lemma MinMaxFrame(ds: Dataset, column: string)
    ensures var r := MinMaxNormalized(ds, column);
      |r| == |ds| &&
      (forall i | 0 <= i < |ds| :: r[i].Keys == ds[i].Keys && (IsNumberAt(ds[i], column) <==> IsNumberAt(r[i], column))) &&
      (forall i, k | 0 <= i < |ds| && k in ds[i] && (k != column || !IsNumberAt(ds[i], column)) :: r[i][k] == ds[i][k])
    ensures var values := NumericColumn(ds, column);
      values == [] || Max(values) == Min(values) ==> MinMaxNormalized(ds, column) == ds
  {
    var values := NumericColumn(ds, column);
    if values != [] && ValueRange(values) != 0.0 {
      forall i | 0 <= i < |ds| {
        RescaledFrame(ds, column, Min(values), ValueRange(values), i);
      }
    }
  }

  // ---------------------------------------------------------------------
  // normalize_z_score

  /** The dataset `normalize_z_score` leaves behind: unchanged when the
      column has no numeric cell or its standard deviation is 0, otherwise
      every numeric cell x becomes (x - mean) / std. */
  function ZScoreNormalized(ds: Dataset, column: string, maths: Maths): Dataset {
    var values := NumericColumn(ds, column);
    if values == [] || StdDev(values, maths) == 0.0 then ds
    else Rescaled(ds, column, Mean(values), StdDev(values, maths))
  }

  method NormalizeZScore(rows: array<Row>, column: string, maths: Maths)
    modifies rows
    ensures rows[..] == ZScoreNormalized(old(rows[..]), column, maths)
  {
    var values := NumericColumn(rows[..], column);
    if values == [] { return; }
    var mean, stdDev := Mean(values), StdDev(values, maths);
    if stdDev == 0.0 { return; }
    RescaleColumn(rows, column, mean, stdDev);
  }

  /** When the column is rescaled (its standard deviation is not 0), the
      numeric cells of the result have mean 0. */
  lemma ZScoreCentred(ds: Dataset, column: string, maths: Maths)
    requires NumericColumn(ds, column) != []
    requires StdDev(NumericColumn(ds, column), maths) != 0.0
    ensures Mean(NumericColumn(ZScoreNormalized(ds, column, maths), column)) == 0.0
  {
    var values := NumericColumn(ds, column);
    var sd := StdDev(values, maths);
    var m := Mean(values);
    assert ZScoreNormalized(ds, column, maths) == Rescaled(ds, column, m, sd);
    RescaledColumn(ds, column, m, sd);
    CentredSum(values, m, sd);
    MeanOfZeroSum(Deviations(values, m, sd));
  }

  lemma MeanOfZeroSum(ys: seq<real>)
    requires Sum(ys) == 0.0
    ensures Mean(ys) == 0.0
  {
  }

  /** Deviations from the mean, divided by any d != 0, sum to 0. */
  lemma CentredSum(values: seq<real>, m: real, d: real)
    requires values != [] && m == Mean(values) && d != 0.0
    ensures Sum(Deviations(values, m, d)) == 0.0
  {
    var n := |values| as real;
    SumDeviations(values, m, d);
    QuotientTimes(Sum(values), n);
  }

  // ---------------------------------------------------------------------
  // normalize_decimal_scaling

  function Abs(x: real): (r: real)
    ensures r >= 0.0 && (r == x || r == -x)
  {
    if x < 0.0 then -x else x
  }

  /** `[abs(x) for x in vs]` */
  function AbsValues(vs: seq<real>): (r: seq<real>)
    ensures |r| == |vs|
    ensures forall x | x in vs :: Abs(x) in r
  {
    var r := seq(|vs|, i requires 0 <= i < |vs| => Abs(vs[i]));
    assert forall i | 0 <= i < |vs| :: r[i] == Abs(vs[i]);
    r
  }

  /** `10 ** math.ceil(math.log10(max_abs))` */
  function DecimalDivisor(maxAbs: real, maths: Maths): (d: real)
    ensures d > 0.0
  {
    Pow10(Ceil(maths.log10(maxAbs)))
  }

  /** The dataset `normalize_decimal_scaling` leaves behind: unchanged when
      the column has no numeric cell or all of them are 0, otherwise every
      numeric cell is divided by the smallest power of ten, by the supplied
      log10, that is at least the largest absolute value. */
  function DecimalScaled(ds: Dataset, column: string, maths: Maths): Dataset {
    var values := AbsValues(NumericColumn(ds, column));
    if values == [] || Max(values) == 0.0 then ds
    else Rescaled(ds, column, 0.0, DecimalDivisor(Max(values), maths))
  }

  method NormalizeDecimalScaling(rows: array<Row>, column: string, maths: Maths)
    modifies rows
    ensures rows[..] == DecimalScaled(old(rows[..]), column, maths)
  {
    var values := AbsValues(NumericColumn(rows[..], column));
    if values == [] { return; }
    var maxAbs := Max(values);
    if maxAbs == 0.0 { return; }
    var k := Ceil(maths.log10(maxAbs));
    var divisor := Pow10(k);
    RescaleColumn(rows, column, 0.0, divisor);
  }

  /** Dividing by d > 0 values whose absolute value is at most d gives values
      in [-1, 1] of the same sign. */
  lemma RescaledBounded(ds: Dataset, column: string, d: real, i: nat)
    requires d > 0.0 && i < |ds|
    requires IsNumberAt(ds[i], column) ==> Abs(ds[i][column].x) <= d
    ensures var r := Rescaled(ds, column, 0.0, d);
      IsNumberAt(ds[i], column) ==>
        -1.0 <= r[i][column].x <= 1.0 &&
        (r[i][column].x < 0.0 <==> ds[i][column].x < 0.0)
  {
    RescaledFrame(ds, column, 0.0, d, i);
    if IsNumberAt(ds[i], column) {
      var x := ds[i][column].x;
      QuotientBetween(x - 0.0, d, -1.0, 1.0);
      if x < 0.0 {
        QuotientMonotone(x, 0.0, d);
      } else {
        QuotientMonotone(0.0, x, d);
      }
    }
  }

  lemma DecimalIsRescaling(ds: Dataset, column: string, maths: Maths, m: real, d: real)
    requires AbsValues(NumericColumn(ds, column)) != []
    requires m == Max(AbsValues(NumericColumn(ds, column))) && m != 0.0
    requires d == DecimalDivisor(m, maths)
    ensures DecimalScaled(ds, column, maths) == Rescaled(ds, column, 0.0, d)
  {
  }

  /** When the supplied log10 is exact enough that 10^ceil(log10(m)) >= m for
      the largest absolute value m, decimal scaling puts every numeric cell
      of the column in [-1, 1] and keeps its sign. */
  lemma DecimalScalingBounded(ds: Dataset, column: string, maths: Maths, m: real)
    requires AbsValues(NumericColumn(ds, column)) != []
    requires m == Max(AbsValues(NumericColumn(ds, column))) && m != 0.0
    requires m <= DecimalDivisor(m, maths)
    ensures var r := DecimalScaled(ds, column, maths);
      forall i | 0 <= i < |ds| && IsNumberAt(ds[i], column) ::
        -1.0 <= r[i][column].x <= 1.0 && (r[i][column].x < 0.0 <==> ds[i][column].x < 0.0)
  {
    var d := DecimalDivisor(m, maths);
    DecimalIsRescaling(ds, column, maths, m, d);
    forall i | 0 <= i < |ds| && IsNumberAt(ds[i], column)
      ensures Abs(ds[i][column].x) <= d
    {
      NumericCellIn(ds, column, i);
    }
    forall i | 0 <= i < |ds| {
      RescaledBounded(ds, column, d, i);
    }
  }
}
