/** Gaussian naive Bayes of classification_logic.py: `train_naive_bayes`,
    which estimates the class priors and, per attribute and class, the mean
    and population standard deviation of the attribute's numbers;
    `gaussian_pdf`; and `predict_naive_bayes`, which picks the class of
    highest log-probability. Logarithm, square root and the normal density
    are the caller's `Maths` functions. */
module NaiveBayes {
  import opened Data
  import opened Arith
  import opened Sums
  import opened Tally
  import opened Statistics
  import opened Impurity

  /** `{'mean': ..., 'std_dev': ...}` */
  datatype GaussianStats = GaussianStats(mean: real, stdDev: real)

  /** `{'priors': ..., 'conditionals': ...}`, with the classes listed in the
      order the priors dict holds them. */
  datatype NaiveBayesModel = NaiveBayesModel(
    classes: seq<Value>,
    priors: map<Value, real>,
    conditionals: map<string, map<Value, GaussianStats>>)

  /** The numbers of attr in the rows of class c. */
  function ClassValues(train: Dataset, attr: string, target: string, c: Value): seq<real>
    requires HasColumn(train, target)
  {
    NumericColumn(Subset(train, target, c), attr)
  }

  /** `sum((x - mean) ** 2 ...) / len(values)`, 0 for no values. */
  function PopulationVariance(values: seq<real>): (v: real)
    ensures v >= 0.0
  {
    if values == [] then 0.0
    else
      SquaresNonNegative(values, Mean(values));
      QuotientMonotone(0.0, SumSquares(values, Mean(values)), |values| as real);
      SumSquares(values, Mean(values)) / |values| as real
  }

  /** The statistics `train_naive_bayes` keeps for attr and class c: mean
      and population standard deviation of the class's numbers, both 0
      when it has none. */
  function ClassStats(train: Dataset, attr: string, target: string, c: Value, sqrt: real -> real): GaussianStats
    requires HasColumn(train, target)
  {
    var values := ClassValues(train, attr, target, c);
    GaussianStats(Mean(values), if values == [] then 0.0 else sqrt(PopulationVariance(values)))
  }

  /** The model `train_naive_bayes` returns for these rows. */
  ghost predicate TrainedOn(model: NaiveBayesModel, train: Dataset, attrs: seq<string>, target: string, sqrt: real -> real)
    requires HasColumn(train, target)
  {
    var targets := Column(train, target);
    && model.classes == Distinct(targets)
    && (forall c :: c in model.priors <==> c in targets)
    && (forall c | c in model.priors :: model.priors[c] == Count(targets, c) as real / |train| as real)
    && (forall a :: a in model.conditionals <==> a in attrs)
    && (forall a | a in model.conditionals :: forall c :: c in model.conditionals[a] <==> c in targets)
    && (forall a, c | a in model.conditionals && c in model.conditionals[a] ::
          model.conditionals[a][c] == ClassStats(train, a, target, c, sqrt))
  }

  /** The model `train_naive_bayes` builds, as a value. */
  function Trained(train: Dataset, attrs: seq<string>, target: string, sqrt: real -> real): NaiveBayesModel
    requires HasColumn(train, target)
  {
    var targets := Column(train, target);
    NaiveBayesModel(
      Distinct(targets),
      map c | c in targets :: Count(targets, c) as real / |train| as real,
      map a | a in attrs :: map c | c in targets :: ClassStats(train, a, target, c, sqrt))
  }

  /** Exactly one model fits the description: Trained. */
  lemma TrainedOnUnique(model: NaiveBayesModel, train: Dataset, attrs: seq<string>, target: string, sqrt: real -> real)
    requires HasColumn(train, target) && TrainedOn(model, train, attrs, target, sqrt)
    ensures model == Trained(train, attrs, target, sqrt)
  {
    var targets := Column(train, target);
    SamePriors(model.priors, targets, |train|);
    SameConditionals(model.conditionals, train, attrs, target, sqrt);
  }

  lemma SamePriors(priors: map<Value, real>, targets: seq<Value>, n: nat)
    requires |targets| == n
    requires forall c :: c in priors <==> c in targets
    requires forall c | c in priors :: priors[c] == Count(targets, c) as real / n as real
    ensures priors == map c | c in targets :: Count(targets, c) as real / n as real
  {
  }

  lemma SameConditionals(conditionals: map<string, map<Value, GaussianStats>>, train: Dataset, attrs: seq<string>,
                         target: string, sqrt: real -> real)
    requires HasColumn(train, target)
    requires forall a :: a in conditionals <==> a in attrs
    requires forall a | a in conditionals :: forall c :: c in conditionals[a] <==> c in Column(train, target)
    requires forall a, c | a in conditionals && c in conditionals[a] ::
      conditionals[a][c] == ClassStats(train, a, target, c, sqrt)
    ensures conditionals == map a | a in attrs :: map c | c in Column(train, target) :: ClassStats(train, a, target, c, sqrt)
  {
    var targets := Column(train, target);
    forall a | a in attrs
      ensures conditionals[a] == map c | c in targets :: ClassStats(train, a, target, c, sqrt)
    {
      SameStats(conditionals[a], train, a, target, sqrt);
    }
  }

  lemma SameStats(stats: map<Value, GaussianStats>, train: Dataset, a: string, target: string, sqrt: real -> real)
    requires HasColumn(train, target)
    requires forall c :: c in stats <==> c in Column(train, target)
    requires forall c | c in stats :: stats[c] == ClassStats(train, a, target, c, sqrt)
    ensures stats == map c | c in Column(train, target) :: ClassStats(train, a, target, c, sqrt)
  {
  }

  /** A trained model answers every test row: its classes are distinct,
      each has a prior, and every attribute has statistics for each. */
  lemma TrainedAnswers(train: Dataset, attrs: seq<string>, target: string, sqrt: real -> real, test: Row)
    requires HasColumn(train, target)
    ensures Answers(Trained(train, attrs, target, sqrt), test, attrs)
  {
  }

  /** `train_naive_bayes` */
  method TrainNaiveBayes(train: Dataset, attrs: seq<string>, target: string, sqrt: real -> real)
    returns (model: NaiveBayesModel)
    requires HasColumn(train, target)
    ensures TrainedOn(model, train, attrs, target, sqrt)
    ensures model == Trained(train, attrs, target, sqrt)
  {
    var targets := Column(train, target);
    var classes := Distinct(targets);
    var priors: map<Value, real> := map[];
    var k := 0;
    while k < |classes|
      invariant 0 <= k <= |classes|
      invariant forall c :: c in priors <==> c in classes[..k]
      invariant forall c | c in priors :: priors[c] == Count(targets, c) as real / |train| as real
    {
      var c := classes[k];
      assert |train| > 0 by { assert c in targets; }
      priors := priors[c := Count(targets, c) as real / |train| as real];
      assert classes[..k + 1] == classes[..k] + [c];
      k := k + 1;
    }
    assert classes[..k] == classes;
    var conditionals: map<string, map<Value, GaussianStats>> := map[];
    var j := 0;
    while j < |attrs|
      invariant 0 <= j <= |attrs|
      invariant forall a :: a in conditionals <==> a in attrs[..j]
      invariant forall a | a in conditionals :: forall c :: c in conditionals[a] <==> c in targets
      invariant forall a, c | a in conditionals && c in conditionals[a] ::
        conditionals[a][c] == ClassStats(train, a, target, c, sqrt)
    {
      var attr := attrs[j];
      var stats := ClassTable(train, attr, target, classes, sqrt);
      conditionals := conditionals[attr := stats];
      assert attrs[..j + 1] == attrs[..j] + [attr];
      j := j + 1;
    }
    assert attrs[..j] == attrs;
    model := NaiveBayesModel(classes, priors, conditionals);
    TrainedOnUnique(model, train, attrs, target, sqrt);
  }

  /** The inner loop of `train_naive_bayes`: the statistics of one attribute
      for every class. */
  method ClassTable(train: Dataset, attr: string, target: string, classes: seq<Value>, sqrt: real -> real)
    returns (stats: map<Value, GaussianStats>)
    requires HasColumn(train, target)
    ensures forall c :: c in stats <==> c in classes
    ensures forall c | c in stats :: stats[c] == ClassStats(train, attr, target, c, sqrt)
  {
    stats := map[];
    var k := 0;
    while k < |classes|
      invariant 0 <= k <= |classes|
      invariant forall c :: c in stats <==> c in classes[..k]
      invariant forall c | c in stats :: stats[c] == ClassStats(train, attr, target, c, sqrt)
    {
      var c := classes[k];
      var subset := Subset(train, target, c);
      var values := NumericColumn(subset, attr);
      var mean := if values != [] then Sum(values) / |values| as real else 0.0;
      var stdDev := if values != [] then sqrt(SumSquares(values, mean) / |values| as real) else 0.0;
      stats := stats[c := GaussianStats(mean, stdDev)];
      assert classes[..k + 1] == classes[..k] + [c];
      k := k + 1;
    }
    assert classes[..k] == classes;
  }

  /** The priors in class order. */
  function PriorList(model: NaiveBayesModel): (ps: seq<real>)
    requires forall c | c in model.classes :: c in model.priors
    ensures |ps| == |model.classes|
  {
    seq(|model.classes|, i requires 0 <= i < |model.classes| => model.priors[model.classes[i]])
  }

  /** Trained on at least one row, the priors are the class proportions:
      each positive and at most 1, together 1. With no rows there is no
      class and no prior. */
  lemma PriorsSumToOne(model: NaiveBayesModel, train: Dataset, attrs: seq<string>, target: string, sqrt: real -> real)
    requires HasColumn(train, target) && TrainedOn(model, train, attrs, target, sqrt)
    ensures forall c | c in model.classes :: c in model.priors
    ensures train == [] ==> model.classes == [] && model.priors == map[]
    ensures train != [] ==>
      && PriorList(model) == Proportions(Column(train, target))
      && (forall i | 0 <= i < |model.classes| :: 0.0 < PriorList(model)[i] <= 1.0)
      && Sum(PriorList(model)) == 1.0
  {
    var targets := Column(train, target);
    if train != [] {
      var ps := Proportions(targets);
      forall i | 0 <= i < |model.classes| ensures PriorList(model)[i] == ps[i] {
        assert Counts(targets, Distinct(targets))[i] == Count(targets, model.classes[i]);
      }
      ProportionsFacts(targets);
    } else {
      assert targets == [];
    }
  }

  /** The mean kept for a class lies between the smallest and the largest of
      its numbers; the variance behind the standard deviation is never
      negative and is 0 exactly when all those numbers are equal. */
  lemma ClassStatsFacts(train: Dataset, attr: string, target: string, c: Value, sqrt: real -> real)
    requires HasColumn(train, target)
    ensures var values := ClassValues(train, attr, target, c);
      var s := ClassStats(train, attr, target, c, sqrt);
      && (values == [] ==> s == GaussianStats(0.0, 0.0))
      && (values != [] ==> Min(values) <= s.mean <= Max(values) && s.stdDev == sqrt(PopulationVariance(values)))
      && (PopulationVariance(values) == 0.0 <==> forall i, j | 0 <= i < |values| && 0 <= j < |values| :: values[i] == values[j])
  {
    var values := ClassValues(train, attr, target, c);
    if values != [] {
      var m := Mean(values);
      SquaresZero(values, m);
      SquaresNonNegative(values, m);
      if SumSquares(values, m) != 0.0 {
        QuotientMonotone(0.0, SumSquares(values, m), |values| as real);
      }
      if forall i, j | 0 <= i < |values| && 0 <= j < |values| :: values[i] == values[j] {
        assert forall x | x in values :: x == values[0];
        SumBounds(values, values[0], values[0]);
        assert forall i | 0 <= i < |values| :: values[i] == m;
      }
    }
  }

  /** `gaussian_pdf(x, mean, std_dev)`: with a zero deviation, 1 at the mean
      and 1e-9 elsewhere; otherwise the normal density. */
  function GaussianPdf(x: real, mean: real, stdDev: real, gaussian: (real, real, real) -> real): (p: real)
    ensures stdDev == 0.0 ==> p > 0.0 && (p == 1.0 <==> x == mean)
  {
    if stdDev == 0.0 then (if x == mean then 1.0 else 0.000000001)
    else gaussian(x, mean, stdDev)
  }

  /** The model holds what `predict_naive_bayes` looks up: a prior for
      every class (and no other), and statistics for every class under each
      attribute the test row holds a number for. */
  ghost predicate Answers(model: NaiveBayesModel, test: Row, attrs: seq<string>) {
    && NoDuplicates(model.classes)
    && (forall c :: c in model.priors <==> c in model.classes)
    && forall a | a in attrs && IsNumberAt(test, a) ::
         a in model.conditionals && forall c | c in model.classes :: c in model.conditionals[a]
  }

  /** The log-probability of class c: log of its prior plus the log
      densities of the test row's numbers. */
  function ClassScore(model: NaiveBayesModel, test: Row, attrs: seq<string>, c: Value, maths: Maths): real
    requires Answers(model, test, attrs) && c in model.classes
  {
    if attrs == [] then maths.ln(model.priors[c])
    else
      var a := attrs[|attrs| - 1];
      assert forall b | b in attrs[..|attrs| - 1] :: b in attrs;
      ClassScore(model, test, attrs[..|attrs| - 1], c, maths)
        + if IsNumberAt(test, a) then
            var s := model.conditionals[a][c];
            maths.ln(GaussianPdf(test[a].x, s.mean, s.stdDev, maths.gaussian))
          else 0.0
  }

  function ClassScores(model: NaiveBayesModel, test: Row, attrs: seq<string>, maths: Maths): (r: seq<real>)
    requires Answers(model, test, attrs)
    ensures |r| == |model.classes|
  {
    seq(|model.classes|, i requires 0 <= i < |model.classes| => ClassScore(model, test, attrs, model.classes[i], maths))
  }

  /** `predict_naive_bayes`: the first class of highest score; `max` of an
      empty dict raises ValueError. */
  function NaiveBayesPrediction(model: NaiveBayesModel, test: Row, attrs: seq<string>, maths: Maths): (r: Outcome<Value>)
    requires Answers(model, test, attrs)
  {
    if model.classes == [] then Raise(ValueError("max() arg is an empty sequence"))
    else Ok(model.classes[FirstMax(ClassScores(model, test, attrs, maths))])
  }

  /** `predict_naive_bayes`: the scores accumulated class by class and
      attribute by attribute, then the first maximum. */
  method PredictNaiveBayes(model: NaiveBayesModel, test: Row, attrs: seq<string>, maths: Maths) returns (r: Outcome<Value>)
    requires Answers(model, test, attrs)
    ensures r == NaiveBayesPrediction(model, test, attrs, maths)
  {
    var probabilities: seq<real> := [];
    var k := 0;
    while k < |model.classes|
      invariant 0 <= k <= |model.classes|
      invariant probabilities == ClassScores(model, test, attrs, maths)[..k]
    {
      var c := model.classes[k];
      var p := maths.ln(model.priors[c]);
      var j := 0;
      while j < |attrs|
        invariant 0 <= j <= |attrs|
        invariant p == ClassScore(model, test, attrs[..j], c, maths)
      {
        var a := attrs[j];
        assert attrs[..j + 1][..j] == attrs[..j];
        if IsNumberAt(test, a) {
          var stats := model.conditionals[a][c];
          p := p + maths.ln(GaussianPdf(test[a].x, stats.mean, stats.stdDev, maths.gaussian));
        }
        j := j + 1;
      }
      assert attrs[..j] == attrs;
      probabilities := probabilities + [p];
      k := k + 1;
    }
    assert probabilities == ClassScores(model, test, attrs, maths);
    if probabilities == [] {
      return Raise(ValueError("max() arg is an empty sequence"));
    }
    r := Ok(model.classes[FirstMax(probabilities)]);
  }

  /** The prediction is a class whose score no class beats, and every class
      listed before it scores strictly less. */
  lemma PredictionIsBest(model: NaiveBayesModel, test: Row, attrs: seq<string>, maths: Maths)
    requires Answers(model, test, attrs)
    ensures var r := NaiveBayesPrediction(model, test, attrs, maths);
      && (r.Raise? <==> model.classes == [])
      && (r.Ok? ==> exists i | 0 <= i < |model.classes| ::
            && model.classes[i] == r.value
            && (forall j | 0 <= j < |model.classes| ::
                  ClassScore(model, test, attrs, model.classes[j], maths) <= ClassScore(model, test, attrs, r.value, maths))
            && (forall j | 0 <= j < i ::
                  ClassScore(model, test, attrs, model.classes[j], maths) < ClassScore(model, test, attrs, r.value, maths)))
  {
    if model.classes != [] {
      var scores := ClassScores(model, test, attrs, maths);
      var i := FirstMax(scores);
      assert forall j | 0 <= j < |model.classes| :: scores[j] == ClassScore(model, test, attrs, model.classes[j], maths);
    }
  }
}
