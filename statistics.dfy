/** The descriptive statistics of processing_logic.py: mean, median, mode,
    sample variance and standard deviation, covariance and correlation, over
    the numeric values of a column. */
module Statistics {
  import opened Data
  import opened Sums
  import opened Tally
  import opened Ordering
  import opened Arith

  /** `calculate_mean`: 0 for no data, otherwise sum / n, which lies between
      the smallest and the largest value. */
  function Mean(data: seq<real>): (m: real)
    ensures data == [] ==> m == 0.0
    ensures data != [] ==> Min(data) <= m <= Max(data)
  {
    if data == [] then 0.0
    else
      SumBounds(data, Min(data), Max(data));
      QuotientBetween(Sum(data), |data| as real, Min(data), Max(data));
      Sum(data) / |data| as real
  }

  predicate RealLe(a: real, b: real) { a <= b }

  lemma RealLeIsTotalPreorder()
    ensures TotalPreorder(RealLe)
  {
  }

  /** `sorted(data)` */
  function SortedCopy(data: seq<real>): (r: seq<real>)
    ensures SortedBy(r, RealLe) && multiset(r) == multiset(data) && |r| == |data|
  {
    RealLeIsTotalPreorder();
    SortBy(data, RealLe)
  }

  /** `calculate_median`: the middle element of the sorted copy for an odd
      count, the average of the two middle elements for an even count, 0 for
      no data. */
  function Median(data: seq<real>): real {
    if data == [] then 0.0 else Middle(SortedCopy(data))
  }

  /** The middle element of a non-empty list of odd length, the average of
      the two middle elements of one of even length. */
  function Middle(s: seq<real>): real
    requires s != []
  {
    var n := |s|;
    if n % 2 == 1 then s[n / 2] else (s[n / 2 - 1] + s[n / 2]) / 2.0
  }

  /** The number of values at most (at least) m. */
  function CountAtMost(s: seq<real>, m: real): (c: nat)
    ensures c <= |s|
  {
    if s == [] then 0 else CountAtMost(s[1..], m) + (if s[0] <= m then 1 else 0)
  }

  function CountAtLeast(s: seq<real>, m: real): (c: nat)
    ensures c <= |s|
  {
    if s == [] then 0 else CountAtLeast(s[1..], m) + (if s[0] >= m then 1 else 0)
  }

  lemma {:induction false} InsertKeepsCounts(x: real, s: seq<real>, m: real)
    requires TotalPreorder(RealLe) && SortedBy(s, RealLe)
    ensures CountAtMost(Insert(x, s, RealLe), m) == CountAtMost(s, m) + (if x <= m then 1 else 0)
    ensures CountAtLeast(Insert(x, s, RealLe), m) == CountAtLeast(s, m) + (if x >= m then 1 else 0)
  {
    if s != [] && !RealLe(x, s[0]) {
      InsertKeepsCounts(x, s[1..], m);
      assert Insert(x, s, RealLe)[1..] == Insert(x, s[1..], RealLe);
    }
  }

  /** Sorting does not change how many values lie on either side of m. */
  lemma {:induction false} SortKeepsCounts(s: seq<real>, m: real)
    ensures CountAtMost(SortedCopy(s), m) == CountAtMost(s, m)
    ensures CountAtLeast(SortedCopy(s), m) == CountAtLeast(s, m)
  {
    RealLeIsTotalPreorder();
    if s != [] {
      SortKeepsCounts(s[1..], m);
      InsertKeepsCounts(s[0], SortBy(s[1..], RealLe), m);
    }
  }

  /** In a list whose first j values are at most m (whose last j values are at
      least m), at least j values are at most m (at least m). */
  lemma {:induction false} PrefixAtMost(s: seq<real>, m: real, j: nat)
    requires j <= |s|
    requires forall i | 0 <= i < j :: s[i] <= m
    ensures CountAtMost(s, m) >= j
  {
    if j > 0 { PrefixAtMost(s[1..], m, j - 1); }
  }

  lemma {:induction false} SuffixAtLeast(s: seq<real>, m: real, j: nat)
    requires j <= |s|
    requires forall i | |s| - j <= i < |s| :: s[i] >= m
    ensures CountAtLeast(s, m) >= j
  {
    if j > 0 {
      if j == |s| {
        SuffixAtLeast(s[1..], m, j - 1);
      } else {
        SuffixAtLeast(s[1..], m, j);
      }
    }
  }

  /** The median splits the data in halves: at least half of the values are
      at most the median and at least half are at least the median; and the
      median lies between the smallest and the largest value. */
  lemma MedianSplitsData(data: seq<real>)
    requires data != []
    ensures 2 * CountAtMost(data, Median(data)) >= |data|
    ensures 2 * CountAtLeast(data, Median(data)) >= |data|
    ensures Min(data) <= Median(data) <= Max(data)
  {
    var s := SortedCopy(data);
    SortKeepsCounts(data, Median(data));
    SortedHalves(s, Median(data));
    MedianBetween(data);
  }

  /** In a sorted list, the median of its elements splits it in halves. */
  lemma SortedHalves(s: seq<real>, m: real)
    requires s != [] && SortedBy(s, RealLe)
    requires m == Middle(s)
    ensures 2 * CountAtMost(s, m) >= |s|
    ensures 2 * CountAtLeast(s, m) >= |s|
  {
    var n := |s|;
    if n % 2 == 1 {
      PrefixAtMost(s, m, n / 2 + 1);
      SuffixAtLeast(s, m, n - n / 2);
    } else {
      assert s[n / 2 - 1] <= s[n / 2];
      PrefixAtMost(s, m, n / 2);
      SuffixAtLeast(s, m, n / 2);
    }
  }

  lemma MedianBetween(data: seq<real>)
    requires data != []
    ensures Min(data) <= Median(data) <= Max(data)
  {
    var s := SortedCopy(data);
    var n := |s|;
    forall i | 0 <= i < n ensures Min(data) <= s[i] <= Max(data) {
      assert s[i] in multiset(data);
      assert s[i] in data;
    }
  }

  /** The values of `keys` whose count in s equals c, in key order. */
  function WithCount<T(==)>(s: seq<T>, keys: seq<T>, c: nat): (r: seq<T>)
    ensures forall x | x in r :: x in keys && Count(s, x) == c
    ensures forall x | x in keys && Count(s, x) == c :: x in r
    ensures NoDuplicates(keys) ==> NoDuplicates(r)
  {
    if keys == [] then []
    else
      var init := keys[..|keys| - 1];
      var k := keys[|keys| - 1];
      assert keys == init + [k];
      var r' := WithCount(s, init, c);
      if Count(s, k) == c then
        assert NoDuplicates(keys) ==> NoDuplicates(init) && k !in init && k !in r';
        r' + [k]
      else r'
  }

  /** `calculate_mode`: every value whose count is the largest count, in
      order of first occurrence; [] for no data. */
  function Mode<T(==)>(data: seq<T>): (r: seq<T>)
    ensures r == [] <==> data == []
    ensures forall x | x in r :: x in data && forall y | y in data :: Count(data, y) <= Count(data, x)
    ensures forall x | x in data && (forall y | y in data :: Count(data, y) <= Count(data, x)) :: x in r
    ensures NoDuplicates(r)
  {
    if data == [] then []
    else
      var top := Count(data, MostCommon(data));
      var r := WithCount(data, Distinct(data), top);
      assert MostCommon(data) in r;
      forall x | x in data && (forall y | y in data :: Count(data, y) <= Count(data, x)) ensures x in r {
        assert Count(data, x) == top;
      }
      r
  }

  /** `calculate_variance`: the sample variance, with divisor n - 1; 0 for
      fewer than two values. */
  function Variance(data: seq<real>): (v: real)
    ensures |data| < 2 ==> v == 0.0
    ensures v >= 0.0
  {
    if |data| < 2 then 0.0
    else
      var m := Mean(data);
      SquaresNonNegative(data, m);
      SumSquares(data, m) / (|data| - 1) as real
  }

  lemma {:induction false} SquaresNonNegative(a: seq<real>, m: real)
    ensures SumSquares(a, m) >= 0.0
  {
    if a != [] {
      SquaresNonNegative(a[..|a| - 1], m);
      SquareNonNegative(a[|a| - 1] - m);
    }
  }

  /** A sum of squared deviations is 0 exactly when every value equals m. */
  lemma {:induction false} SquaresZero(a: seq<real>, m: real)
    ensures SumSquares(a, m) == 0.0 <==> forall i | 0 <= i < |a| :: a[i] == m
  {
    if forall i | 0 <= i < |a| :: a[i] == m {
      if a != [] {
        var init := a[..|a| - 1];
        assert forall i | 0 <= i < |init| :: init[i] == m;
        SquaresZero(init, m);
        SquareNonNegative(a[|a| - 1] - m);
      }
    } else {
      var i :| 0 <= i < |a| && a[i] != m;
      SquaresPositive(a, m, i);
    }
  }

  /** One value away from m makes the sum of squared deviations positive. */
  lemma {:induction false} SquaresPositive(a: seq<real>, m: real, i: nat)
    requires i < |a| && a[i] != m
    ensures SumSquares(a, m) > 0.0
  {
    var init := a[..|a| - 1];
    SquareNonNegative(a[|a| - 1] - m);
    if i == |a| - 1 {
      SquaresNonNegative(init, m);
    } else {
      assert init[i] == a[i];
      SquaresPositive(init, m, i);
    }
  }

  /** The variance is 0 exactly when all values are equal. */
  lemma VarianceZeroIffConstant(data: seq<real>)
    requires |data| >= 2
    ensures Variance(data) == 0.0 <==> forall i, j | 0 <= i < |data| && 0 <= j < |data| :: data[i] == data[j]
  {
    var m := Mean(data);
    SquaresZero(data, m);
    if forall i, j | 0 <= i < |data| && 0 <= j < |data| :: data[i] == data[j] {
      assert forall x | x in data :: x == data[0];
      SumBounds(data, data[0], data[0]);
      assert forall i | 0 <= i < |data| :: data[i] == m;
    }
  }

  /** `calculate_std_dev` */
  function StdDev(data: seq<real>, maths: Maths): real {
    maths.sqrt(Variance(data))
  }

  /** `calculate_covariance`: 0 when the lengths differ or there are fewer
      than two values, otherwise the sample covariance with divisor n - 1. */
  function Covariance(a: seq<real>, b: seq<real>): (c: real)
    ensures |a| != |b| || |a| < 2 ==> c == 0.0
  {
    if |a| != |b| || |a| < 2 then 0.0
    else SumDevProducts(a, b, Mean(a), Mean(b)) / (|a| - 1) as real
  }

  lemma {:induction false} DevProductsSymmetric(a: seq<real>, b: seq<real>, ma: real, mb: real)
    requires |a| == |b|
    ensures SumDevProducts(a, b, ma, mb) == SumDevProducts(b, a, mb, ma)
  {
    if a != [] { DevProductsSymmetric(a[..|a| - 1], b[..|b| - 1], ma, mb); }
  }

  /** Products of a list's deviations with themselves are its squared deviations. */
  lemma {:induction false} SelfProducts(a: seq<real>, m: real)
    ensures SumDevProducts(a, a, m, m) == SumSquares(a, m)
  {
    if a != [] { SelfProducts(a[..|a| - 1], m); }
  }

  /** Covariance is symmetric, and the covariance of a series with itself is
      its variance. */
  lemma CovarianceSymmetric(a: seq<real>, b: seq<real>)
    ensures Covariance(a, b) == Covariance(b, a)
    ensures Covariance(a, a) == Variance(a)
  {
    if |a| == |b| && |a| >= 2 { DevProductsSymmetric(a, b, Mean(a), Mean(b)); }
    if |a| >= 2 { SelfProducts(a, Mean(a)); }
  }

  /** `calculate_correlation`: 0 when either standard deviation is 0,
      otherwise covariance / (std_dev1 * std_dev2). */
  function Correlation(a: seq<real>, b: seq<real>, maths: Maths): real {
    var sa, sb := StdDev(a, maths), StdDev(b, maths);
    if sa == 0.0 || sb == 0.0 then 0.0 else Covariance(a, b) / Times(sa, sb)
  }

  /** The Cauchy-Schwarz inequality on deviations:
      (sum of dx*dy)^2 <= (sum of dx^2) * (sum of dy^2). */
  lemma {:induction false} CauchySchwarz(a: seq<real>, b: seq<real>, ma: real, mb: real)
    requires |a| == |b|
    ensures Square(SumDevProducts(a, b, ma, mb)) <= Times(SumSquares(a, ma), SumSquares(b, mb))
  {
    if a != [] {
      var a', b' := a[..|a| - 1], b[..|b| - 1];
      CauchySchwarz(a', b', ma, mb);
      SquaresNonNegative(a', ma);
      SquaresNonNegative(b', mb);
      CauchySchwarzStep(SumSquares(a', ma), SumSquares(b', mb), SumDevProducts(a', b', ma, mb),
        a[|a| - 1] - ma, b[|b| - 1] - mb);
    }
  }

  /** With a true square root, the correlation coefficient lies in [-1, 1]. */
  lemma CorrelationBounded(a: seq<real>, b: seq<real>, maths: Maths)
    requires maths.sqrt(Variance(a)) >= 0.0 && Square(maths.sqrt(Variance(a))) == Variance(a)
    requires maths.sqrt(Variance(b)) >= 0.0 && Square(maths.sqrt(Variance(b))) == Variance(b)
    ensures -1.0 <= Correlation(a, b, maths) <= 1.0
  {
    var sa, sb := StdDev(a, maths), StdDev(b, maths);
    if sa != 0.0 && sb != 0.0 {
      var cov := Covariance(a, b);
      if |a| == |b| && |a| >= 2 {
        CauchySchwarz(a, b, Mean(a), Mean(b));
        ScaledProductBound(SumDevProducts(a, b, Mean(a), Mean(b)),
          SumSquares(a, Mean(a)), SumSquares(b, Mean(b)), (|a| - 1) as real);
      } else {
        SquareNonNegative(0.0);
        SquareNonNegative(sa);
        SquareNonNegative(sb);
        NonNegativeProduct(Square(sa), Square(sb));
      }
      RatioBounded(cov, sa, sb);
    }
  }
}
