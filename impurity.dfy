/** The split measures of decision-tree induction: entropy, information
    gain, split information, gain ratio, Gini impurity and Gini gain, and the
    choice of the attribute to split on.

    Python's `math.log2` is supplied by the caller as a function value. The
    Counter that each measure builds over a column is `Counts(labels,
    Distinct(labels))`: one count per distinct value, in order of first
    occurrence. */
module Impurity {
  import opened Data
  import opened Arith
  import opened Sums
  import opened Tally

  // Rows and their partitions

  /** `[row for row in data if row[attribute] == value]` */
  function Subset(data: Dataset, attr: string, v: Value): (s: Dataset)
    requires HasColumn(data, attr)
    ensures |s| == Count(Column(data, attr), v)
  {
    if data == [] then []
    else
      var init := data[..|data| - 1];
      var row := data[|data| - 1];
      assert Column(data, attr) == Column(init, attr) + [row[attr]];
      Subset(init, attr, v) + (if row[attr] == v then [row] else [])
  }

  /** The subset holds rows of the data with the value v. */
  lemma {:induction false} SubsetRows(data: Dataset, attr: string, v: Value)
    requires HasColumn(data, attr)
    ensures forall k | 0 <= k < |Subset(data, attr, v)| :: Subset(data, attr, v)[k] in data && Subset(data, attr, v)[k][attr] == v
  {
    if data != [] {
      var init := data[..|data| - 1];
      SubsetRows(init, attr, v);
      assert forall k | 0 <= k < |init| :: init[k] in data;
    }
  }

  /** Every column that all rows carry is carried by all rows of a subset. */
  lemma SubsetColumns(data: Dataset, attr: string, v: Value, c: string)
    requires HasColumn(data, attr) && HasColumn(data, c)
    ensures HasColumn(Subset(data, attr, v), c)
  {
    var s := Subset(data, attr, v);
    SubsetRows(data, attr, v);
    forall k | 0 <= k < |s| ensures c in s[k] {
      var j :| 0 <= j < |data| && data[j] == s[k];
    }
  }

  /** A value that occurs in the column selects at least one row. */
  lemma SubsetNonEmpty(data: Dataset, attr: string, v: Value)
    requires HasColumn(data, attr) && v in Column(data, attr)
    ensures Subset(data, attr, v) != []
  {
  }

  // The class proportions

  /** `count / total_count` for every count of `Counter(labels)`. */
  function Proportions(labels: seq<Value>): (ps: seq<real>)
    requires labels != []
    ensures |ps| == |Distinct(labels)|
  {
    Fractions(Counts(labels, Distinct(labels)), |labels| as real)
  }

  /** Every proportion is positive and at most 1, and together they add up
      to 1. */
  lemma ProportionsFacts(labels: seq<Value>)
    requires labels != []
    ensures forall i | 0 <= i < |Proportions(labels)| :: 0.0 < Proportions(labels)[i] <= 1.0
    ensures Sum(Proportions(labels)) == 1.0
  {
    forall i | 0 <= i < |Proportions(labels)| ensures 0.0 < Proportions(labels)[i] <= 1.0 {
      ProportionBounds(labels, i);
    }
    ProportionsSum(labels);
  }

  lemma ProportionsSum(labels: seq<Value>)
    requires labels != []
    ensures Sum(Proportions(labels)) == 1.0
  {
    var counts := Counts(labels, Distinct(labels));
    var n := |labels| as real;
    CounterTotal(labels);
    QuotientSumOf(counts, n);
    UnitQuotient(n, n);
    assert Proportions(labels) == Fractions(counts, n);
  }

  lemma ProportionBounds(labels: seq<Value>, i: nat)
    requires labels != [] && i < |Distinct(labels)|
    ensures 0.0 < Proportions(labels)[i] <= 1.0
  {
    var d := Distinct(labels);
    var c := Count(labels, d[i]) as real;
    var n := |labels| as real;
    assert Proportions(labels)[i] == c / n;
    UnitQuotient(c, n);
    QuotientMonotone(0.0, c, n);
  }

  /** Each count divided by n. */
  function Fractions(counts: seq<int>, n: real): (r: seq<real>)
    requires n > 0.0
    ensures |r| == |counts|
  {
    seq(|counts|, i requires 0 <= i < |counts| => counts[i] as real / n)
  }

  /** Summing the quotients is dividing the sum. */
  lemma {:induction false} QuotientSumOf(counts: seq<int>, n: real)
    requires n > 0.0
    ensures Sum(Fractions(counts, n)) == SumInt(counts) as real / n
  {
    if counts != [] {
      var init := counts[..|counts| - 1];
      QuotientSumOf(init, n);
      assert Fractions(counts, n)[..|counts| - 1] == Fractions(init, n);
      QuotientSum(SumInt(init) as real, counts[|counts| - 1] as real, n);
    }
  }

  /** A column has a single proportion exactly when all its values agree. */
  lemma SingleClass(labels: seq<Value>)
    requires labels != []
    ensures |Distinct(labels)| == 1 <==> Uniform(labels)
  {
    if Uniform(labels) {
      DistinctOfUniform(labels);
    } else if |Distinct(labels)| == 1 {
      var d := Distinct(labels);
      assert forall i | 0 <= i < |labels| :: labels[i] in d;
    }
  }

  /** The only distinct value of a column whose values all agree is its first. */
  lemma {:induction false} DistinctOfUniform(labels: seq<Value>)
    requires labels != [] && Uniform(labels)
    ensures Distinct(labels) == [labels[0]]
  {
    if |labels| > 1 {
      var init := labels[..|labels| - 1];
      assert Uniform(init);
      DistinctOfUniform(init);
      assert labels[|labels| - 1] == init[0];
    }
  }

  /** All values are equal: `len(set(labels)) <= 1`. */
  predicate Uniform(labels: seq<Value>) {
    forall i, j | 0 <= i < |labels| && 0 <= j < |labels| :: labels[i] == labels[j]
  }

  // Entropy

  /** One term `-p * log2(p)` of the entropy loop, which skips p == 0. */
  function EntropyTerm(p: real, log2: real -> real): real {
    if p > 0.0 then -Times(p, log2(p)) else 0.0
  }

  function EntropyTerms(ps: seq<real>, log2: real -> real): (r: seq<real>)
    ensures |r| == |ps|
  {
    seq(|ps|, i requires 0 <= i < |ps| => EntropyTerm(ps[i], log2))
  }

  /** `calculate_entropy` of the target column; the same computation is
      `calculate_split_info` of an attribute column. 0 for no rows. */
  function Entropy(labels: seq<Value>, log2: real -> real): real {
    if labels == [] then 0.0 else Sum(EntropyTerms(Proportions(labels), log2))
  }

  /** The logarithm is negative below 1 and 0 at 1, as `math.log2` is. */
  ghost predicate LogLike(log2: real -> real) {
    log2(1.0) == 0.0 && forall p: real | 0.0 < p < 1.0 :: log2(p) < 0.0
  }

  /** With a logarithm that is negative below 1 and 0 at 1, entropy is
      non-negative, and it is 0 exactly when all values agree. */
  lemma EntropyZeroIffUniform(labels: seq<Value>, log2: real -> real)
    requires LogLike(log2)
    ensures Entropy(labels, log2) >= 0.0
    ensures Entropy(labels, log2) == 0.0 <==> Uniform(labels)
  {
    if labels != [] {
      var ps := Proportions(labels);
      var ts := EntropyTerms(ps, log2);
      ProportionsFacts(labels);
      forall i | 0 <= i < |ts| ensures ts[i] >= 0.0 && (ts[i] == 0.0 <==> ps[i] == 1.0) {
        EntropyTermFacts(ps[i], log2);
      }
      SumNonNegative(ts);
      SingleClass(labels);
      AllOnes(ps);
    }
  }

  lemma EntropyTermFacts(p: real, log2: real -> real)
    requires LogLike(log2) && 0.0 < p <= 1.0
    ensures EntropyTerm(p, log2) >= 0.0
    ensures EntropyTerm(p, log2) == 0.0 <==> p == 1.0
  {
    if p < 1.0 {
      PositiveProduct(p, -log2(p));
    }
  }

  /** Proportions that add up to 1 are all 1 exactly when there is just one. */
  lemma AllOnes(ps: seq<real>)
    requires forall i | 0 <= i < |ps| :: 0.0 < ps[i] <= 1.0
    requires Sum(ps) == 1.0
    ensures (forall i | 0 <= i < |ps| :: ps[i] == 1.0) <==> |ps| == 1
  {
    if forall i | 0 <= i < |ps| :: ps[i] == 1.0 {
      SumBounds(ps, 1.0, 1.0);
    } else if |ps| == 1 {
      assert Sum(ps) == Sum(ps[..0]) + ps[0];
    }
  }

  // Gini impurity

  function Squares(ps: seq<real>): (r: seq<real>)
    ensures |r| == |ps|
  {
    seq(|ps|, i requires 0 <= i < |ps| => Square(ps[i]))
  }

  /** `calculate_gini_index`: 1 minus the squared class proportions; 0 for
      no rows. */
  function Gini(labels: seq<Value>): real {
    if labels == [] then 0.0 else 1.0 - Sum(Squares(Proportions(labels)))
  }

  /** The Gini impurity lies in [0, 1), and is 0 exactly when all values
      agree (in particular for no rows). */
  lemma GiniBounds(labels: seq<Value>)
    ensures 0.0 <= Gini(labels) < 1.0
    ensures Gini(labels) == 0.0 <==> Uniform(labels)
  {
    if labels != [] {
      var ps := Proportions(labels);
      var sq := Squares(ps);
      ProportionsFacts(labels);
      var gaps := Gaps(ps, sq);
      forall i | 0 <= i < |ps| ensures gaps[i] >= 0.0 && (gaps[i] == 0.0 <==> ps[i] == 1.0) && sq[i] > 0.0 {
        SquareBelow(ps[i]);
      }
      SumNonNegative(gaps);
      SumDifference(ps, sq);
      assert sq[0] > 0.0;
      SumPositive(sq);
      SingleClass(labels);
      AllOnes(ps);
    }
  }

  /** p - p^2 for every proportion. */
  function Gaps(a: seq<real>, b: seq<real>): (r: seq<real>)
    requires |a| == |b|
    ensures |r| == |a|
  {
    seq(|a|, i requires 0 <= i < |a| => a[i] - b[i])
  }

  lemma {:induction false} SumDifference(a: seq<real>, b: seq<real>)
    requires |a| == |b|
    ensures Sum(a) - Sum(b) == Sum(Gaps(a, b))
  {
    if a != [] {
      var n := |a| - 1;
      SumDifference(a[..n], b[..n]);
      assert Gaps(a, b)[..n] == Gaps(a[..n], b[..n]);
    }
  }

  /** A sum of positive terms, at least one of them, is positive. */
  lemma {:induction false} SumPositive(s: seq<real>)
    requires |s| > 0 && forall i | 0 <= i < |s| :: s[i] > 0.0
    ensures Sum(s) > 0.0
  {
    var init := s[..|s| - 1];
    assert forall i | 0 <= i < |init| :: init[i] == s[i];
    SumNonNegative(init);
  }

  /** 0 < p <= 1 gives 0 < p^2 <= p, with p^2 == p only for p == 1. */
  lemma SquareBelow(p: real)
    requires 0.0 < p <= 1.0
    ensures 0.0 < Square(p) <= p
    ensures Square(p) == p <==> p == 1.0
  {
    PositiveProduct(p, p);
    MonotoneProduct(p, 1.0, p);
    if p < 1.0 {
      TimesStrict(p, 1.0, p);
    }
  }

  // Gains

  /** `len(subset) / len(data)` */
  function Weight(data: Dataset, attr: string, v: Value): real
    requires HasColumn(data, attr) && data != []
  {
    |Subset(data, attr, v)| as real / |data| as real
  }

  /** `(len(subset) / len(data)) * impurity(subset)` for every distinct value
      of the attribute. */
  function Weighted(data: Dataset, attr: string, target: string, impurity: seq<Value> -> real): (w: seq<real>)
    requires HasColumn(data, attr) && HasColumn(data, target)
    ensures |w| == |Distinct(Column(data, attr))|
  {
    var vals := Distinct(Column(data, attr));
    seq(|vals|, i requires 0 <= i < |vals| =>
      assert vals[i] in Column(data, attr);
      Times(Weight(data, attr, vals[i]), impurity(SubsetTargets(data, attr, target, vals[i]))))
  }

  /** Entropy as an impurity measure. */
  function EntropyMeasure(log2: real -> real): seq<Value> -> real {
    ls => Entropy(ls, log2)
  }

  /** The k-th weighted term: the share of the rows holding the k-th value
      times the impurity x of their targets. */
  lemma WeightedAt(data: Dataset, attr: string, target: string, impurity: seq<Value> -> real, k: nat, x: real)
    requires HasColumn(data, attr) && HasColumn(data, target)
    requires k < |Distinct(Column(data, attr))|
    requires x == impurity(SubsetTargets(data, attr, target, Distinct(Column(data, attr))[k]))
    ensures data != []
    ensures Times(|Subset(data, attr, Distinct(Column(data, attr))[k])| as real / |data| as real, x)
      == Weighted(data, attr, target, impurity)[k]
  {
    assert Distinct(Column(data, attr))[k] in Column(data, attr);
  }

  lemma EntropyMeasureAt(log2: real -> real, labels: seq<Value>)
    ensures EntropyMeasure(log2)(labels) == Entropy(labels, log2)
  {
  }

  /** `calculate_information_gain` */
  function InformationGain(data: Dataset, attr: string, target: string, log2: real -> real): real
    requires HasColumn(data, attr) && HasColumn(data, target)
  {
    Entropy(Column(data, target), log2) - Sum(Weighted(data, attr, target, EntropyMeasure(log2)))
  }

  /** `calculate_gini_gain` */
  function GiniGain(data: Dataset, attr: string, target: string): real
    requires HasColumn(data, attr) && HasColumn(data, target)
  {
    Gini(Column(data, target)) - Sum(Weighted(data, attr, target, Gini))
  }

  /** `calculate_split_info` */
  function SplitInfo(data: Dataset, attr: string, log2: real -> real): real
    requires HasColumn(data, attr)
  {
    Entropy(Column(data, attr), log2)
  }

  /** `calculate_gain_ratio`: 0 when the split information is 0. */
  function GainRatio(data: Dataset, attr: string, target: string, log2: real -> real): real
    requires HasColumn(data, attr) && HasColumn(data, target)
  {
    var si := SplitInfo(data, attr, log2);
    if si != 0.0 then InformationGain(data, attr, target, log2) / si else 0.0
  }

  /** All rows of the subset for every value of the attribute share one
      target. */
  predicate PureSplit(data: Dataset, attr: string, target: string)
    requires HasColumn(data, attr) && HasColumn(data, target)
  {
    forall v | v in Column(data, attr) :: Uniform(SubsetTargets(data, attr, target, v))
  }

  /** `[row[target_attr] for row in subset]` */
  function SubsetTargets(data: Dataset, attr: string, target: string, v: Value): (ts: seq<Value>)
    requires HasColumn(data, attr) && HasColumn(data, target)
    ensures HasColumn(Subset(data, attr, v), target) && ts == Column(Subset(data, attr, v), target)
  {
    SubsetColumns(data, attr, v, target);
    Column(Subset(data, attr, v), target)
  }

  /** A weighted sum of impurities is non-negative, and 0 exactly when every
      subset's impurity is 0. */
  lemma WeightedFacts(data: Dataset, attr: string, target: string, impurity: seq<Value> -> real)
    requires HasColumn(data, attr) && HasColumn(data, target)
    requires forall v | v in Column(data, attr) :: impurity(SubsetTargets(data, attr, target, v)) >= 0.0
    ensures Sum(Weighted(data, attr, target, impurity)) >= 0.0
    ensures Sum(Weighted(data, attr, target, impurity)) == 0.0 <==>
      forall v | v in Column(data, attr) :: impurity(SubsetTargets(data, attr, target, v)) == 0.0
  {
    var vals := Distinct(Column(data, attr));
    var w := Weighted(data, attr, target, impurity);
    forall i | 0 <= i < |vals| ensures w[i] >= 0.0 && (w[i] == 0.0 <==> impurity(SubsetTargets(data, attr, target, vals[i])) == 0.0) {
      WeightedTerm(data, attr, target, impurity, vals[i]);
    }
    SumNonNegative(w);
    if Sum(w) == 0.0 {
      forall v | v in Column(data, attr) ensures impurity(SubsetTargets(data, attr, target, v)) == 0.0 {
        var i :| 0 <= i < |vals| && vals[i] == v;
      }
    }
  }

  lemma WeightedTerm(data: Dataset, attr: string, target: string, impurity: seq<Value> -> real, v: Value)
    requires HasColumn(data, attr) && HasColumn(data, target) && v in Column(data, attr)
    requires impurity(SubsetTargets(data, attr, target, v)) >= 0.0
    ensures data != []
    ensures var t := Times(Weight(data, attr, v), impurity(SubsetTargets(data, attr, target, v)));
      t >= 0.0 && (t == 0.0 <==> impurity(SubsetTargets(data, attr, target, v)) == 0.0)
  {
    var g := impurity(SubsetTargets(data, attr, target, v));
    var n := |Subset(data, attr, v)| as real;
    QuotientMonotone(0.0, n, |data| as real);
    NonNegativeProduct(Weight(data, attr, v), g);
    if g > 0.0 {
      PositiveProduct(Weight(data, attr, v), g);
    }
  }

  /** The Gini gain never exceeds the impurity before the split, and equals
      it exactly when the split leaves every subset pure. */
  lemma GiniGainBounded(data: Dataset, attr: string, target: string)
    requires HasColumn(data, attr) && HasColumn(data, target)
    ensures GiniGain(data, attr, target) <= Gini(Column(data, target))
    ensures GiniGain(data, attr, target) == Gini(Column(data, target)) <==> PureSplit(data, attr, target)
  {
    forall v | v in Column(data, attr)
      ensures Gini(SubsetTargets(data, attr, target, v)) >= 0.0
      ensures Gini(SubsetTargets(data, attr, target, v)) == 0.0 <==> Uniform(SubsetTargets(data, attr, target, v))
    {
      GiniBounds(SubsetTargets(data, attr, target, v));
    }
    WeightedFacts(data, attr, target, Gini);
  }

  /** With a logarithm like `math.log2`, the information gain never exceeds
      the entropy before the split, and equals it exactly when the split
      leaves every subset pure. */
  lemma InformationGainBounded(data: Dataset, attr: string, target: string, log2: real -> real)
    requires HasColumn(data, attr) && HasColumn(data, target)
    requires LogLike(log2)
    ensures InformationGain(data, attr, target, log2) <= Entropy(Column(data, target), log2)
    ensures InformationGain(data, attr, target, log2) == Entropy(Column(data, target), log2) <==> PureSplit(data, attr, target)
  {
    var f := EntropyMeasure(log2);
    forall v | v in Column(data, attr)
      ensures f(SubsetTargets(data, attr, target, v)) >= 0.0
      ensures f(SubsetTargets(data, attr, target, v)) == 0.0 <==> Uniform(SubsetTargets(data, attr, target, v))
    {
      EntropyZeroIffUniform(SubsetTargets(data, attr, target, v), log2);
    }
    WeightedFacts(data, attr, target, f);
  }

  /** An attribute with one value throughout has split information 0, so
      its gain ratio is 0. */
  lemma GainRatioOfConstant(data: Dataset, attr: string, target: string, log2: real -> real)
    requires HasColumn(data, attr) && HasColumn(data, target)
    requires LogLike(log2)
    requires Uniform(Column(data, attr))
    ensures SplitInfo(data, attr, log2) == 0.0
    ensures GainRatio(data, attr, target, log2) == 0.0
  {
    EntropyZeroIffUniform(Column(data, attr), log2);
  }

  // Choosing the attribute

  /** The criteria `find_best_attribute` recognises. */
  predicate KnownCriterion(criterion: string) {
    criterion == "information_gain" || criterion == "gini_index" || criterion == "gain_ratio"
  }

  /** `gains[attribute]` under a recognised criterion. */
  function Score(data: Dataset, attr: string, target: string, criterion: string, log2: real -> real): real
    requires HasColumn(data, attr) && HasColumn(data, target)
    requires KnownCriterion(criterion)
  {
    if criterion == "information_gain" then InformationGain(data, attr, target, log2)
    else if criterion == "gini_index" then GiniGain(data, attr, target)
    else GainRatio(data, attr, target, log2)
  }

  function Scores(data: Dataset, attrs: seq<string>, target: string, criterion: string, log2: real -> real): (s: seq<real>)
    requires HasColumns(data, attrs) && HasColumn(data, target)
    requires KnownCriterion(criterion)
    ensures |s| == |attrs|
    ensures forall i | 0 <= i < |attrs| :: s[i] == Score(data, attrs[i], target, criterion, log2)
  {
    seq(|attrs|, i requires 0 <= i < |attrs| => Score(data, attrs[i], target, criterion, log2))
  }

  /** `find_best_attribute`: None when there are no attributes or the
      criterion is not recognised (the gains dict stays empty); otherwise
      the first attribute, in list order, with the highest score. */
  function BestAttribute(data: Dataset, attrs: seq<string>, target: string, criterion: string, log2: real -> real): (r: Option<string>)
    requires HasColumns(data, attrs) && HasColumn(data, target)
    ensures r.None? <==> attrs == [] || !KnownCriterion(criterion)
    ensures r.Some? ==> r.value in attrs
  {
    if attrs == [] || !KnownCriterion(criterion) then None
    else Some(attrs[FirstMax(Scores(data, attrs, target, criterion, log2))])
  }

  /** The attribute chosen scores at least as high as every attribute, and
      strictly higher than every attribute listed before it. */
  lemma BestAttributeIsFirstMax(data: Dataset, attrs: seq<string>, target: string, criterion: string, log2: real -> real)
    requires HasColumns(data, attrs) && HasColumn(data, target)
    requires attrs != [] && KnownCriterion(criterion)
    ensures var best := BestAttribute(data, attrs, target, criterion, log2).value;
      && (forall a | a in attrs :: Score(data, a, target, criterion, log2) <= Score(data, best, target, criterion, log2))
      && exists i | 0 <= i < |attrs| :: attrs[i] == best &&
           forall j | 0 <= j < i :: Score(data, attrs[j], target, criterion, log2) < Score(data, best, target, criterion, log2)
  {
    var s := Scores(data, attrs, target, criterion, log2);
    var i := FirstMax(s);
    forall a | a in attrs ensures Score(data, a, target, criterion, log2) <= s[i] {
      var j :| 0 <= j < |attrs| && attrs[j] == a;
      assert s[j] <= s[i];
    }
    assert forall j | 0 <= j < i :: s[j] < s[i];
  }

  // The loops of the measures

  /** `calculate_entropy`: the loop over the counts of the target column. */
  method CalculateEntropy(data: Dataset, target: string, log2: real -> real) returns (e: real)
    requires HasColumn(data, target)
    ensures e == Entropy(Column(data, target), log2)
  {
    var total := |data|;
    if total == 0 {
      return 0.0;
    }
    var labels := Column(data, target);
    var counts := Counts(labels, Distinct(labels));
    ghost var terms := EntropyTerms(Proportions(labels), log2);
    e := 0.0;
    var k := 0;
    while k < |counts|
      invariant 0 <= k <= |counts|
      invariant e == Sum(terms[..k])
    {
      var p := counts[k] as real / total as real;
      if p > 0.0 {
        e := e - Times(p, log2(p));
      }
      assert terms[..k + 1][..k] == terms[..k];
      k := k + 1;
    }
    assert terms[..k] == terms;
  }

  /** `calculate_split_info`: the same loop over the counts of the
      attribute's column. */
  method CalculateSplitInfo(data: Dataset, attr: string, log2: real -> real) returns (s: real)
    requires HasColumn(data, attr)
    ensures s == SplitInfo(data, attr, log2)
  {
    s := CalculateEntropy(data, attr, log2);
  }

  /** `calculate_gini_index`: 1 minus each squared proportion in turn. */
  method CalculateGiniIndex(data: Dataset, target: string) returns (g: real)
    requires HasColumn(data, target)
    ensures g == Gini(Column(data, target))
  {
    var total := |data|;
    if total == 0 {
      return 0.0;
    }
    var labels := Column(data, target);
    var counts := Counts(labels, Distinct(labels));
    ghost var squares := Squares(Proportions(labels));
    g := 1.0;
    var k := 0;
    while k < |counts|
      invariant 0 <= k <= |counts|
      invariant g == 1.0 - Sum(squares[..k])
    {
      g := g - Square(counts[k] as real / total as real);
      assert squares[..k + 1][..k] == squares[..k];
      k := k + 1;
    }
    assert squares[..k] == squares;
  }

  /** `calculate_information_gain`: the entropy of the target minus the
      entropy of each subset, weighted by its share of the rows. */
  method CalculateInformationGain(data: Dataset, attr: string, target: string, log2: real -> real) returns (gain: real)
    requires HasColumn(data, attr) && HasColumn(data, target)
    ensures gain == InformationGain(data, attr, target, log2)
  {
    var total := CalculateEntropy(data, target, log2);
    var values := Distinct(Column(data, attr));
    ghost var terms := Weighted(data, attr, target, EntropyMeasure(log2));
    var weighted := 0.0;
    var k := 0;
    while k < |values|
      invariant 0 <= k <= |values|
      invariant weighted == Sum(terms[..k])
    {
      var term := EntropyShare(data, attr, target, log2, k);
      assert terms[..k + 1][..k] == terms[..k];
      weighted := weighted + term;
      k := k + 1;
    }
    assert terms[..k] == terms;
    gain := total - weighted;
  }

  /** The loop body of `calculate_information_gain` for the k-th value:
      the subset's share of the rows times its entropy. */
  method EntropyShare(data: Dataset, attr: string, target: string, log2: real -> real, k: nat) returns (term: real)
    requires HasColumn(data, attr) && HasColumn(data, target)
    requires k < |Distinct(Column(data, attr))|
    ensures term == Weighted(data, attr, target, EntropyMeasure(log2))[k]
  {
    var value := Distinct(Column(data, attr))[k];
    var subset := Subset(data, attr, value);
    SubsetColumns(data, attr, value, target);
    var e := CalculateEntropy(subset, target, log2);
    EntropyMeasureAt(log2, Column(subset, target));
    WeightedAt(data, attr, target, EntropyMeasure(log2), k, e);
    term := Times(|subset| as real / |data| as real, e);
  }

  /** The loop body of `calculate_gini_gain` for the k-th value. */
  method GiniShare(data: Dataset, attr: string, target: string, k: nat) returns (term: real)
    requires HasColumn(data, attr) && HasColumn(data, target)
    requires k < |Distinct(Column(data, attr))|
    ensures term == Weighted(data, attr, target, Gini)[k]
  {
    var value := Distinct(Column(data, attr))[k];
    var subset := Subset(data, attr, value);
    SubsetColumns(data, attr, value, target);
    var g := CalculateGiniIndex(subset, target);
    WeightedAt(data, attr, target, Gini, k, g);
    term := Times(|subset| as real / |data| as real, g);
  }

  /** `calculate_gini_gain`: the Gini impurity of the target minus that of
      each subset, weighted by its share of the rows. */
  method CalculateGiniGain(data: Dataset, attr: string, target: string) returns (gain: real)
    requires HasColumn(data, attr) && HasColumn(data, target)
    ensures gain == GiniGain(data, attr, target)
  {
    var total := CalculateGiniIndex(data, target);
    var values := Distinct(Column(data, attr));
    ghost var terms := Weighted(data, attr, target, Gini);
    var weighted := 0.0;
    var k := 0;
    while k < |values|
      invariant 0 <= k <= |values|
      invariant weighted == Sum(terms[..k])
    {
      var term := GiniShare(data, attr, target, k);
      assert terms[..k + 1][..k] == terms[..k];
      weighted := weighted + term;
      k := k + 1;
    }
    assert terms[..k] == terms;
    gain := total - weighted;
  }

  /** `calculate_gain_ratio` */
  method CalculateGainRatio(data: Dataset, attr: string, target: string, log2: real -> real) returns (ratio: real)
    requires HasColumn(data, attr) && HasColumn(data, target)
    ensures ratio == GainRatio(data, attr, target, log2)
  {
    var gain := CalculateInformationGain(data, attr, target, log2);
    var splitInfo := CalculateSplitInfo(data, attr, log2);
    ratio := if splitInfo != 0.0 then gain / splitInfo else 0.0;
  }

  lemma ScoresPrefix(data: Dataset, attrs: seq<string>, target: string, criterion: string, log2: real -> real, k: nat)
    requires HasColumns(data, attrs) && HasColumn(data, target)
    requires KnownCriterion(criterion) && k < |attrs|
    ensures Scores(data, attrs, target, criterion, log2)[..k + 1]
      == Scores(data, attrs, target, criterion, log2)[..k] + [Score(data, attrs[k], target, criterion, log2)]
  {
  }

  /** `find_best_attribute`: the gains of the attributes under the
      criterion, then the first attribute with the highest gain. */
  method FindBestAttribute(data: Dataset, attrs: seq<string>, target: string, criterion: string, log2: real -> real)
    returns (best: Option<string>)
    requires HasColumns(data, attrs) && HasColumn(data, target)
    ensures best == BestAttribute(data, attrs, target, criterion, log2)
  {
    var gains: seq<real> := [];
    var k := 0;
    while k < |attrs|
      invariant 0 <= k <= |attrs|
      invariant KnownCriterion(criterion) ==> gains == Scores(data, attrs, target, criterion, log2)[..k]
      invariant !KnownCriterion(criterion) ==> gains == []
    {
      var attr := attrs[k];
      if criterion == "information_gain" {
        var gain := CalculateInformationGain(data, attr, target, log2);
        ScoresPrefix(data, attrs, target, criterion, log2, k);
        gains := gains + [gain];
      } else if criterion == "gini_index" {
        var gain := CalculateGiniGain(data, attr, target);
        ScoresPrefix(data, attrs, target, criterion, log2, k);
        gains := gains + [gain];
      } else if criterion == "gain_ratio" {
        var gain := CalculateGainRatio(data, attr, target, log2);
        ScoresPrefix(data, attrs, target, criterion, log2, k);
        gains := gains + [gain];
      }
      k := k + 1;
    }
    if gains == [] {
      best := None;
    } else {
      assert gains == Scores(data, attrs, target, criterion, log2);
      best := Some(attrs[FirstMax(gains)]);
    }
  }
}
