/** Simple linear regression of classification_logic.py,
    `train_linear_regression`: the least-squares line y = b0 + b1 * x
    through the numeric values of two columns. */
module Regression {
  import opened Data
  import opened Arith
  import opened Sums
  import opened Statistics

  /** `{'B0_intercept': b0, 'B1_slope': b1}` */
  datatype LinearModel = LinearModel(intercept: real, slope: real)

  const TooFewRows := "Columns must have at least 2 matching numeric rows."
  const ConstantX := "Cannot perform regression, independent variable is constant."

  /** The fit of two lists of numbers: ValueError when their lengths differ
      or there are fewer than two, ValueError when x is constant, otherwise
      slope = sum of deviation products / sum of squared x deviations and
      intercept = mean of y - slope * mean of x. */
  function Fit(xs: seq<real>, ys: seq<real>): Outcome<LinearModel>
  {
    if |xs| != |ys| || |xs| < 2 then Raise(ValueError(TooFewRows))
    else
      var xm, ym := Mean(xs), Mean(ys);
      var den := SumSquares(xs, xm);
      if den == 0.0 then Raise(ValueError(ConstantX))
      else
        var b1 := SumDevProducts(xs, ys, xm, ym) / den;
        Ok(LinearModel(ym - Times(b1, xm), b1))
  }

  /** `train_linear_regression` as written: the numbers of the two columns
      are filtered each on its own, so a row with a number in one column
      only shifts every later pair. */
  function TrainLinearRegressionAsWritten(ds: Dataset, x: string, y: string): Outcome<LinearModel>
  {
    Fit(NumericColumn(ds, x), NumericColumn(ds, y))
  }

  /** The (x, y) numbers of the rows holding a number in both columns, in
      row order. */
  function NumericPairs(ds: Dataset, x: string, y: string): (ps: seq<(real, real)>)
    ensures |ps| <= |ds|
  {
    if ds == [] then []
    else
      var last := ds[|ds| - 1];
      NumericPairs(ds[..|ds| - 1], x, y) + (if IsNumberAt(last, x) && IsNumberAt(last, y) then [(last[x].x, last[y].x)] else [])
  }

  function Firsts(ps: seq<(real, real)>): (xs: seq<real>)
    ensures |xs| == |ps| && forall i | 0 <= i < |ps| :: xs[i] == ps[i].0
  {
    seq(|ps|, i requires 0 <= i < |ps| => ps[i].0)
  }

  function Seconds(ps: seq<(real, real)>): (ys: seq<real>)
    ensures |ys| == |ps| && forall i | 0 <= i < |ps| :: ys[i] == ps[i].1
  {
    seq(|ps|, i requires 0 <= i < |ps| => ps[i].1)
  }

  /** `train_linear_regression`, pairing x and y row by row: the fit of the
      rows that hold a number in both columns. */
  function TrainLinearRegression(ds: Dataset, x: string, y: string): Outcome<LinearModel>
  {
    var ps := NumericPairs(ds, x, y);
    Fit(Firsts(ps), Seconds(ps))
  }

  // ---------------------------------------------------------------------
  // What the fit promises

  /** The errors, and the least-squares line: it passes through the point
      of means, its slope is the covariance over the variance of x, and
      the residuals weighted by the x deviations sum to zero (the normal
      equation). */
  lemma FitFacts(xs: seq<real>, ys: seq<real>)
    ensures |xs| != |ys| || |xs| < 2 ==> Fit(xs, ys) == Raise(ValueError(TooFewRows))
    ensures |xs| == |ys| && |xs| >= 2 ==>
      (Fit(xs, ys) == Raise(ValueError(ConstantX)) <==> forall i, j | 0 <= i < |xs| && 0 <= j < |xs| :: xs[i] == xs[j])
    ensures Fit(xs, ys).Ok? ==>
      var m := Fit(xs, ys).value;
      && m.intercept + Times(m.slope, Mean(xs)) == Mean(ys)
      && m.slope == Covariance(xs, ys) / Variance(xs)
      && SumDevProducts(xs, ys, Mean(xs), Mean(ys)) == Times(m.slope, SumSquares(xs, Mean(xs)))
  {
    if |xs| == |ys| && |xs| >= 2 {
      var xm := Mean(xs);
      SquaresZero(xs, xm);
      VarianceZeroIffConstant(xs);
      var den := SumSquares(xs, xm);
      if den != 0.0 {
        var num := SumDevProducts(xs, ys, xm, Mean(ys));
        QuotientTimes(num, den);
        RatioOfScaled(num, den, (|xs| - 1) as real);
      }
    }
  }

  /** Dividing both terms of a ratio by the same positive number keeps it. */
  lemma RatioOfScaled(a: real, b: real, d: real)
    requires b != 0.0 && d > 0.0
    ensures (a / d) / (b / d) == a / b
  {
  }

  /** Points on a line y = a + c * x with x not constant: the fit recovers
      that line exactly. */
  lemma FitRecoversLine(xs: seq<real>, ys: seq<real>, a: real, c: real)
    requires |xs| == |ys| >= 2
    requires exists i, j | 0 <= i < |xs| && 0 <= j < |xs| :: xs[i] != xs[j]
    requires forall i | 0 <= i < |xs| :: ys[i] == a + Times(c, xs[i])
    ensures Fit(xs, ys) == Ok(LinearModel(a, c))
  {
    var xm := Mean(xs);
    var ym := Mean(ys);
    SquaresZero(xs, xm);
    var den := SumSquares(xs, xm);
    assert den != 0.0;
    MeanOfLine(xs, ys, a, c);
    DevProductsOfLine(xs, ys, xm, ym, a, c);
    CancelQuotient(c, den);
  }

  lemma CancelQuotient(c: real, d: real)
    requires d != 0.0
    ensures Times(c, d) / d == c
  {
  }

  /** The mean of points on a line lies on the line. */
  lemma MeanOfLine(xs: seq<real>, ys: seq<real>, a: real, c: real)
    requires |xs| == |ys| > 0
    requires forall i | 0 <= i < |xs| :: ys[i] == a + Times(c, xs[i])
    ensures Mean(ys) == a + Times(c, Mean(xs))
  {
    var n := |xs| as real;
    SumOfLine(xs, ys, a, c);
    LineQuotient(Sum(xs), n, a, c);
  }

  lemma LineQuotient(s: real, n: real, a: real, c: real)
    requires n > 0.0
    ensures (Times(n, a) + Times(c, s)) / n == a + Times(c, s / n)
  {
  }

  /** The sum of points on a line: n * a + c * (the sum of the xs). */
  lemma {:induction false} SumOfLine(xs: seq<real>, ys: seq<real>, a: real, c: real)
    requires |xs| == |ys|
    requires forall i | 0 <= i < |xs| :: ys[i] == a + Times(c, xs[i])
    ensures Sum(ys) == Times(|xs| as real, a) + Times(c, Sum(xs))
  {
    if xs != [] {
      var k := |xs| - 1;
      SumOfLine(xs[..k], ys[..k], a, c);
      TimesSucc(k as real, a);
      DistributeTimes(c, Sum(xs[..k]), xs[k]);
    }
  }

  lemma DistributeTimes(c: real, p: real, q: real)
    ensures Times(c, p + q) == Times(c, p) + Times(c, q)
    ensures Times(c, p - q) == Times(c, p) - Times(c, q)
  {
  }

  /** On a line, the deviation products are c times the squared x
      deviations. */
  lemma {:induction false} DevProductsOfLine(xs: seq<real>, ys: seq<real>, xm: real, ym: real, a: real, c: real)
    requires |xs| == |ys|
    requires forall i | 0 <= i < |xs| :: ys[i] == a + Times(c, xs[i])
    requires ym == a + Times(c, xm)
    ensures SumDevProducts(xs, ys, xm, ym) == Times(c, SumSquares(xs, xm))
  {
    if xs != [] {
      var k := |xs| - 1;
      DevProductsOfLine(xs[..k], ys[..k], xm, ym, a, c);
      DistributeTimes(c, xs[k], xm);
      ProductOfLine(xs[k] - xm, c);
      DistributeTimes(c, SumSquares(xs[..k], xm), Square(xs[k] - xm));
    }
  }

  lemma ProductOfLine(d: real, c: real)
    ensures Times(d, Times(c, d)) == Times(c, Square(d))
  {
  }

  // ---------------------------------------------------------------------
  // Pairing x and y

  /** The pairs are the rows holding a number in both columns. */
  lemma {:induction false} NumericPairsFrom(ds: Dataset, x: string, y: string, p: (real, real))
    requires p in NumericPairs(ds, x, y)
    ensures exists i | 0 <= i < |ds| :: IsNumberAt(ds[i], x) && IsNumberAt(ds[i], y) && p == (ds[i][x].x, ds[i][y].x)
  {
    var init := ds[..|ds| - 1];
    if p in NumericPairs(init, x, y) {
      NumericPairsFrom(init, x, y, p);
      var i :| 0 <= i < |init| && IsNumberAt(init[i], x) && IsNumberAt(init[i], y) && p == (init[i][x].x, init[i][y].x);
      assert ds[i] == init[i];
    }
  }

  /** Every row holding a number in both columns gives a pair. */
  lemma {:induction false} NumericPairsIn(ds: Dataset, x: string, y: string, i: nat)
    requires i < |ds| && IsNumberAt(ds[i], x) && IsNumberAt(ds[i], y)
    ensures (ds[i][x].x, ds[i][y].x) in NumericPairs(ds, x, y)
  {
    var init := ds[..|ds| - 1];
    if i < |init| {
      assert init[i] == ds[i];
      NumericPairsIn(init, x, y, i);
    }
  }

  /** Rows whose numbers lie on a line y = a + c * x, two of them with
      different x: the regression recovers the line, whatever the rows
      holding a number in one column only. */
  lemma RegressionRecoversLine(ds: Dataset, x: string, y: string, a: real, c: real, i: nat, j: nat)
    requires forall k | 0 <= k < |ds| && IsNumberAt(ds[k], x) && IsNumberAt(ds[k], y) :: ds[k][y].x == a + Times(c, ds[k][x].x)
    requires i < |ds| && j < |ds|
    requires IsNumberAt(ds[i], x) && IsNumberAt(ds[i], y) && IsNumberAt(ds[j], x) && IsNumberAt(ds[j], y)
    requires ds[i][x].x != ds[j][x].x
    ensures TrainLinearRegression(ds, x, y) == Ok(LinearModel(a, c))
  {
    var ps := NumericPairs(ds, x, y);
    var xs, ys := Firsts(ps), Seconds(ps);
    NumericPairsIn(ds, x, y, i);
    NumericPairsIn(ds, x, y, j);
    var p :| 0 <= p < |ps| && ps[p] == (ds[i][x].x, ds[i][y].x);
    var q :| 0 <= q < |ps| && ps[q] == (ds[j][x].x, ds[j][y].x);
    assert xs[p] != xs[q];
    forall k | 0 <= k < |xs| ensures ys[k] == a + Times(c, xs[k]) {
      assert ps[k] in ps;
      NumericPairsFrom(ds, x, y, ps[k]);
    }
    FitRecoversLine(xs, ys, a, c);
  }

  /** Two rows with a number in one column only, then the points (2, 6)
      and (3, 7), both on y = 4 + x. */
  const Mispaired: Dataset := [map["x" := Num(1.0), "y" := Str("a")], map["x" := Str("b"), "y" := Num(10.0)],
                               map["x" := Num(2.0), "y" := Num(6.0)], map["x" := Num(3.0), "y" := Num(7.0)]]

  /** As written, the rows holding a number in one column only shift the
      pairs: the code pairs the xs 1, 2, 3 with the ys 10, 6, 7 and returns
      slope -1.5, while the rows with both numbers lie on y = 4 + x. */
  lemma MispairedRows()
    ensures TrainLinearRegressionAsWritten(Mispaired, "x", "y").Ok?
    ensures TrainLinearRegressionAsWritten(Mispaired, "x", "y").value.slope == -1.5
    ensures TrainLinearRegression(Mispaired, "x", "y") == Ok(LinearModel(4.0, 1.0))
  {
    MispairedColumns();
    AsWrittenFit();
    RegressionRecoversLine(Mispaired, "x", "y", 4.0, 1.0, 2, 3);
  }

  lemma MispairedColumns()
    ensures NumericColumn(Mispaired, "x") == [1.0, 2.0, 3.0]
    ensures NumericColumn(Mispaired, "y") == [10.0, 6.0, 7.0]
  {
    MispairedColumn("x");
    MispairedColumn("y");
  }

  lemma MispairedColumn(c: string)
    ensures var ds := Mispaired;
      NumericColumn(ds, c) == NumericCell(ds[0], c) + NumericCell(ds[1], c) + NumericCell(ds[2], c) + NumericCell(ds[3], c)
  {
    var ds := Mispaired;
    var r0, r1, r2, r3 := ds[0], ds[1], ds[2], ds[3];
    assert ds == [] + [r0] + [r1] + [r2] + [r3];
    NumericColumnSnoc([], r0, c);
    NumericColumnSnoc([r0], r1, c);
    NumericColumnSnoc([r0, r1], r2, c);
    NumericColumnSnoc([r0, r1, r2], r3, c);
  }

  lemma AsWrittenFit()
    ensures Fit([1.0, 2.0, 3.0], [10.0, 6.0, 7.0]).Ok?
    ensures Fit([1.0, 2.0, 3.0], [10.0, 6.0, 7.0]).value.slope == -1.5
  {
    var xs, ys := [1.0, 2.0, 3.0], [10.0, 6.0, 7.0];
    assert xs[..2] == [1.0, 2.0] && xs[..2][..1] == [1.0] && xs[..2][..1][..0] == [];
    assert ys[..2] == [10.0, 6.0] && ys[..2][..1] == [10.0] && ys[..2][..1][..0] == [];
    assert Sum([1.0]) == 1.0 && Sum([1.0, 2.0]) == 3.0 && Sum(xs) == 6.0;
    assert Sum([10.0]) == 10.0 && Sum([10.0, 6.0]) == 16.0 && Sum(ys) == 23.0;
    assert Mean(xs) == 2.0;
    assert Mean(ys) == 23.0 / 3.0;
    assert SumSquares([1.0], 2.0) == 1.0 && SumSquares([1.0, 2.0], 2.0) == 1.0;
    assert SumSquares(xs, 2.0) == 2.0;
    var ym := 23.0 / 3.0;
    assert SumDevProducts([1.0], [10.0], 2.0, ym) == ym - 10.0;
    assert SumDevProducts([1.0, 2.0], [10.0, 6.0], 2.0, ym) == ym - 10.0;
    assert SumDevProducts(xs, ys, 2.0, ym) == -3.0;
  }
}
