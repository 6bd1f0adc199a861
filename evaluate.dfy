/** `evaluate_model` of evaluation_logic.py: split the rows, train the
    requested classifier on the training part, predict the test part, and
    report the accuracy, the confusion matrix and the first predictions. */
module ModelEvaluation {
  import opened Data
  import opened Tally
  import opened DecisionTree
  import opened TreePreprocessing
  import opened Knn
  import opened NaiveBayes
  import opened OneRule
  import opened Evaluation

  const EmptyDataset := "Dataset is empty."
  const NoTarget := "Target attribute not provided."
  const UnsupportedTask := "Unsupported task: "
  const TestSize := 0.2
  const SampleCount := 10

  /** The parameters `evaluate_model` reads: 'target_attribute' (the empty
      string when it is missing or empty), 'split_criterion' and 'k' (None
      when absent). */
  datatype Params = Params(target: string, splitCriterion: Option<string>, k: Option<int>)

  /** `{'error': ...}` or `{'task': ..., 'accuracy': ..., 'confusion_matrix':
      ..., 'sample_predictions': ...}` */
  datatype Evaluated =
    | Failure(message: string)
    | Evaluated(task: string, accuracy: real, confusionMatrix: ConfusionMatrix, samplePredictions: seq<(Value, Value)>)

  /** `params.get('split_criterion', 'information_gain')` */
  function Criterion(params: Params): string {
    if params.splitCriterion.Some? then params.splitCriterion.value else "information_gain"
  }

  /** `int(params.get('k', 3))` */
  function K(params: Params): int {
    if params.k.Some? then params.k.value else 3
  }

  /** The default of the i-th tree prediction, `random.choice(class_labels)`:
      the i-th draw of choice, taken as an index of the labels. */
  function DefaultLabel(labels: seq<Value>, choice: nat -> nat, i: nat): Value
    requires labels != []
  {
    labels[choice(i) % |labels|]
  }

  // ---------------------------------------------------------------------
  // The prediction loops of the four branches

  /** The results of a loop that stops at the first exception: the values
      when every step succeeds, else the first exception. */
  function Collect(rs: seq<Outcome<Value>>): (r: Outcome<seq<Value>>)
    ensures r.Ok? <==> forall i | 0 <= i < |rs| :: rs[i].Ok?
    ensures r.Ok? ==> |r.value| == |rs| && forall i | 0 <= i < |rs| :: r.value[i] == rs[i].value
    ensures r.Raise? ==> exists i | 0 <= i < |rs| :: rs[i] == Raise(r.error) && forall j | 0 <= j < i :: rs[j].Ok?
  {
    if rs == [] then Ok([])
    else
      var init := rs[..|rs| - 1];
      assert forall i | 0 <= i < |init| :: init[i] == rs[i];
      match Collect(init)
      case Raise(e) => Raise(e)
      case Ok(vs) =>
        match rs[|rs| - 1]
        case Raise(e) => Raise(e)
        case Ok(v) => Ok(vs + [v])
  }

  /** Once a prefix fails, the whole loop fails with the same exception. */
  lemma {:induction false} CollectPrefix(rs: seq<Outcome<Value>>, i: nat)
    requires i <= |rs| && Collect(rs[..i]).Raise?
    ensures Collect(rs) == Collect(rs[..i])
    decreases |rs| - i
  {
    if i < |rs| {
      assert rs[..i + 1][..i] == rs[..i];
      CollectPrefix(rs, i + 1);
    } else {
      assert rs[..i] == rs;
    }
  }

  /** `predict_with_tree(model, row, default=random.choice(class_labels))`
      for every test row. */
  function TreePredictions(tree: Tree, test: Dataset, labels: seq<Value>, choice: nat -> nat): (ps: seq<Value>)
    requires labels != []
    ensures |ps| == |test|
  {
    seq(|test|, i requires 0 <= i < |test| => PredictWithTree(tree, test[i], DefaultLabel(labels, choice, i)))
  }

  /** The prediction part of `predict_knn` for every test row. */
  function KnnOutcomes(train: Dataset, test: Dataset, k: int, attrs: seq<string>, target: string, sqrt: real -> real)
    : (rs: seq<Outcome<Value>>)
    requires HasColumn(train, target)
    ensures |rs| == |test|
  {
    seq(|test|, i requires 0 <= i < |test| =>
      match PredictKnn(train, test[i], k, attrs, target, sqrt)
      case Raise(e) => Raise(e)
      case Ok(p) => Ok(p.prediction))
  }

  /** `predict_naive_bayes` for every test row. */
  function NaiveBayesOutcomes(model: NaiveBayesModel, test: Dataset, attrs: seq<string>, maths: Maths)
    : (rs: seq<Outcome<Value>>)
    requires forall i | 0 <= i < |test| :: Answers(model, test[i], attrs)
    ensures |rs| == |test|
  {
    seq(|test|, i requires 0 <= i < |test| => NaiveBayesPrediction(model, test[i], attrs, maths))
  }

  /** `predict_1r` for every test row. */
  function OneRPredictions(model: OneRModel, test: Dataset): (ps: seq<Value>)
    ensures |ps| == |test|
  {
    seq(|test|, i requires 0 <= i < |test| => Predict1R(model, test[i]))
  }

  /** Preprocessing keeps every column of every row. */
  lemma PreprocessedColumns(train: Dataset, attrs: seq<string>, target: string)
    requires HasColumns(train, attrs) && HasColumn(train, target)
    ensures HasColumns(Preprocessed(train, attrs), attrs) && HasColumn(Preprocessed(train, attrs), target)
  {
    PreprocessedCells(train, attrs);
  }

  /** A trained naive Bayes model answers every test row. */
  lemma TrainedAnswersAll(train: Dataset, attrs: seq<string>, target: string, sqrt: real -> real, test: Dataset)
    requires HasColumn(train, target)
    ensures forall i | 0 <= i < |test| :: Answers(Trained(train, attrs, target, sqrt), test[i], attrs)
  {
    forall i | 0 <= i < |test| ensures Answers(Trained(train, attrs, target, sqrt), test[i], attrs) {
      TrainedAnswers(train, attrs, target, sqrt, test[i]);
    }
  }

  /** The predictions of the task's branch, each branch calling the
      classifier functions that classification_logic.py defines
      (`predict_knn`, `predict_naive_bayes`); None for an unsupported task. */
  function TaskPredictions(task: string, train: Dataset, test: Dataset, attrs: seq<string>, target: string,
                           params: Params, labels: seq<Value>, choice: nat -> nat, maths: Maths)
    : Outcome<Option<seq<Value>>>
    requires HasColumns(train, attrs) && HasColumn(train, target) && labels != []
  {
    if task == "decision_tree" then
      PreprocessedColumns(train, attrs, target);
      match BuildTree(Preprocessed(train, attrs), attrs, target, Criterion(params), maths.log2)
      case Raise(e) => Raise(e)
      case Ok(tree) => Ok(Some(TreePredictions(tree, test, labels, choice)))
    else if task == "knn" then
      match Collect(KnnOutcomes(train, test, K(params), attrs, target, maths.sqrt))
      case Raise(e) => Raise(e)
      case Ok(ps) => Ok(Some(ps))
    else if task == "naive_bayes" then
      TrainedAnswersAll(train, attrs, target, maths.sqrt, test);
      match Collect(NaiveBayesOutcomes(Trained(train, attrs, target, maths.sqrt), test, attrs, maths))
      case Raise(e) => Raise(e)
      case Ok(ps) => Ok(Some(ps))
    else if task == "rule_based_1r" then
      match OneR(train, attrs, target)
      case Raise(e) => Raise(e)
      case Ok(model) => Ok(Some(OneRPredictions(model, test)))
    else Ok(None)
  }

  /** The branches as written: the knn branch calls `knn_classify` and the
      naive_bayes branch `naive_bayes_predict`, neither of which the module
      defines, so each fails with AttributeError at its first test row
      (naive_bayes after training, which cannot fail). */
  function TaskPredictionsAsWritten(task: string, train: Dataset, test: Dataset, attrs: seq<string>, target: string,
                                    params: Params, labels: seq<Value>, choice: nat -> nat, maths: Maths)
    : Outcome<Option<seq<Value>>>
    requires HasColumns(train, attrs) && HasColumn(train, target) && labels != []
  {
    if task == "knn" && test != [] then Raise(AttributeError("knn_classify"))
    else if task == "naive_bayes" && test != [] then Raise(AttributeError("naive_bayes_predict"))
    else TaskPredictions(task, train, test, attrs, target, params, labels, choice, maths)
  }

  // ---------------------------------------------------------------------
  // evaluate_model

  /** The report on predictions for the actual test targets. */
  function Report(task: string, predictions: seq<Value>, actual: seq<Value>, labels: seq<Value>): Evaluated {
    Evaluated(
      task,
      Accuracy(predictions, actual),
      ConfusionMatrix(labels, Tabulated(labels, Zip(predictions, actual))),
      Zip(predictions[..SliceEnd(|predictions|, SampleCount)], actual[..SliceEnd(|actual|, SampleCount)]))
  }

  /** The rows of each part of the split carry the columns of the data. */
  lemma SplitColumns(dataset: Dataset, draws: seq<nat>, columns: seq<string>, target: string)
    requires Draws(draws, |dataset|) && HasColumns(dataset, columns) && HasColumn(dataset, target)
    ensures var parts := Split(dataset, TestSize, draws);
      && HasColumns(parts.0, columns) && HasColumn(parts.0, target)
      && HasColumns(parts.1, columns) && HasColumn(parts.1, target)
  {
    var parts := Split(dataset, TestSize, draws);
    SplitFacts(dataset, TestSize, draws);
    assert multiset(parts.0) <= multiset(dataset) && multiset(parts.1) <= multiset(dataset);
    PartColumns(dataset, parts.0, target);
    PartColumns(dataset, parts.1, target);
    forall a | a in columns ensures HasColumn(parts.0, a) && HasColumn(parts.1, a) {
      PartColumns(dataset, parts.0, a);
      PartColumns(dataset, parts.1, a);
    }
  }

  /** `evaluate_model(dataset, task, params)` with the column order of the
      first row, the shuffle's draws, and the draws of `random.choice`. */
  function EvaluationOutcome(dataset: Dataset, columns: seq<string>, task: string, params: Params,
                             draws: seq<nat>, choice: nat -> nat, maths: Maths): Outcome<Evaluated>
    requires Draws(draws, |dataset|) && HasColumns(dataset, columns)
  {
    if dataset == [] then Ok(Failure(EmptyDataset))
    else if params.target == "" then Ok(Failure(NoTarget))
    else if !HasColumn(dataset, params.target) then Raise(KeyError)
    else
      var target := params.target;
      var attrs := Without(columns, target);
      var labels := Distinct(Column(dataset, target));
      assert dataset[0][target] in labels;
      var parts := Split(dataset, TestSize, draws);
      SplitColumns(dataset, draws, columns, target);
      assert HasColumns(parts.0, attrs);
      match TaskPredictions(task, parts.0, parts.1, attrs, target, params, labels, choice, maths)
      case Raise(e) => Raise(e)
      case Ok(None) => Ok(Failure(UnsupportedTask + task))
      case Ok(Some(ps)) => Ok(Report(task, ps, Column(parts.1, target), labels))
  }

  /** `evaluate_model`: the checks, the split, the branch loops appending
      to `predictions`, then accuracy, confusion matrix and samples. */
  method EvaluateModel(dataset: Dataset, columns: seq<string>, task: string, params: Params,
                       draws: seq<nat>, choice: nat -> nat, maths: Maths) returns (r: Outcome<Evaluated>)
    requires Draws(draws, |dataset|) && HasColumns(dataset, columns)
    ensures r == EvaluationOutcome(dataset, columns, task, params, draws, choice, maths)
  {
    if dataset == [] {
      return Ok(Failure(EmptyDataset));
    }
    var target := params.target;
    if target == "" {
      return Ok(Failure(NoTarget));
    }
    if !HasColumn(dataset, target) {
      return Raise(KeyError);
    }
    var attrs := Without(columns, target);
    var labels := Distinct(Column(dataset, target));
    assert dataset[0][target] in labels;
    var train, test := TrainTestSplit(dataset, TestSize, draws);
    SplitColumns(dataset, draws, columns, target);
    assert HasColumns(train, attrs);
    var outcome := RunTask(task, train, test, attrs, target, params, labels, choice, maths);
    if outcome.Raise? {
      return Raise(outcome.error);
    }
    if outcome.value.None? {
      return Ok(Failure(UnsupportedTask + task));
    }
    var predictions := outcome.value.value;
    var actual := Column(test, target);
    var accuracy := Accuracy(predictions, actual);
    var confusionMatrix := GenerateConfusionMatrix(predictions, actual, labels);
    var samples := Zip(predictions[..SliceEnd(|predictions|, SampleCount)], actual[..SliceEnd(|actual|, SampleCount)]);
    r := Ok(Evaluated(task, accuracy, confusionMatrix, samples));
  }

  /** The branch on the task, each branch training its classifier and
      appending a prediction per test row. */
  method RunTask(task: string, train: Dataset, test: Dataset, attrs: seq<string>, target: string,
                 params: Params, labels: seq<Value>, choice: nat -> nat, maths: Maths)
    returns (r: Outcome<Option<seq<Value>>>)
    requires HasColumns(train, attrs) && HasColumn(train, target) && labels != []
    ensures r == TaskPredictions(task, train, test, attrs, target, params, labels, choice, maths)
  {
    if task == "decision_tree" {
      var processed := PreprocessForTree(train, attrs);
      PreprocessedColumns(train, attrs, target);
      var model := BuildDecisionTree(processed, attrs, target, Criterion(params), maths.log2);
      if model.Raise? {
        return Raise(model.error);
      }
      var predictions := PredictAllWithTree(model.value, test, labels, choice);
      r := Ok(Some(predictions));
    } else if task == "knn" {
      var p := PredictAllKnn(train, test, K(params), attrs, target, maths.sqrt);
      if p.Raise? {
        return Raise(p.error);
      }
      r := Ok(Some(p.value));
    } else if task == "naive_bayes" {
      var model := TrainNaiveBayes(train, attrs, target, maths.sqrt);
      TrainedAnswersAll(train, attrs, target, maths.sqrt, test);
      var p := PredictAllNaiveBayes(model, test, attrs, maths);
      if p.Raise? {
        return Raise(p.error);
      }
      r := Ok(Some(p.value));
    } else if task == "rule_based_1r" {
      var model := Train1R(train, attrs, target);
      if model.Raise? {
        return Raise(model.error);
      }
      var predictions := PredictAll1R(model.value, test);
      r := Ok(Some(predictions));
    } else {
      r := Ok(None);
    }
  }

  // ---------------------------------------------------------------------
  // Properties

  /** Every branch that succeeds predicts once per test row. */
  lemma TaskPredictionsLength(task: string, train: Dataset, test: Dataset, attrs: seq<string>, target: string,
                              params: Params, labels: seq<Value>, choice: nat -> nat, maths: Maths)
    requires HasColumns(train, attrs) && HasColumn(train, target) && labels != []
    ensures var r := TaskPredictions(task, train, test, attrs, target, params, labels, choice, maths);
      r.Ok? && r.value.Some? ==> |r.value.value| == |test|
  {
    if task == "naive_bayes" {
      TrainedAnswersAll(train, attrs, target, maths.sqrt, test);
    }
  }

  /** The actual values are drawn from the test rows, which are rows of
      the data, so each is one of the labels. */
  lemma ActualAreLabels(dataset: Dataset, test: Dataset, target: string)
    requires HasColumn(dataset, target) && multiset(test) <= multiset(dataset)
    ensures HasColumn(test, target)
    ensures forall k | 0 <= k < |test| :: Column(test, target)[k] in Distinct(Column(dataset, target))
  {
    PartColumns(dataset, test, target);
    forall k | 0 <= k < |test| ensures Column(test, target)[k] in Column(dataset, target) {
      assert test[k] in multiset(test);
      assert test[k] in multiset(dataset);
      var j :| 0 <= j < |dataset| && dataset[j] == test[k];
      assert Column(dataset, target)[j] == test[k][target];
    }
  }

  /** The report on one prediction per actual value: the accuracy is a
      percentage; it is the matrix's diagonal over the number of test rows,
      up to rounding to two decimals; the matrix is square over the labels
      and counts every pair once when every value is a label; the samples
      are the first ten pairs. */
  lemma ReportFacts(task: string, predictions: seq<Value>, actual: seq<Value>, labels: seq<Value>)
    requires |predictions| == |actual|
    requires forall k | 0 <= k < |actual| :: actual[k] in labels
    ensures var e := Report(task, predictions, actual, labels);
      var m := e.confusionMatrix.matrix;
      && e.task == task
      && 0.0 <= e.accuracy <= 100.0
      && (actual == [] ==> e.accuracy == 0.0)
      && e.confusionMatrix.labels == labels && IsSquare(m, |labels|)
      && Trace(m) == Correct(Zip(predictions, actual))
      && (actual != [] ==>
            var exact := Trace(m) as real / |actual| as real * 100.0;
            exact - 0.005 <= e.accuracy <= exact + 0.005)
      && Total(m) <= |actual|
      && ((forall k | 0 <= k < |predictions| :: predictions[k] in labels) ==> Total(m) == |actual|)
      && |e.samplePredictions| == (if |actual| < SampleCount then |actual| else SampleCount)
      && (forall k | 0 <= k < |e.samplePredictions| :: e.samplePredictions[k] == (predictions[k], actual[k]))
  {
    var pairs := Zip(predictions, actual);
    AccuracyFacts(predictions, actual);
    TabulatedSums(labels, pairs);
    AgreementsKnown(labels, pairs);
    if forall k | 0 <= k < |predictions| :: predictions[k] in labels {
      AllKnown(labels, pairs);
    }
  }

  /** With every value a label, every pair is counted. */
  lemma {:induction false} AllKnown(labels: seq<Value>, pairs: seq<(Value, Value)>)
    requires forall k | 0 <= k < |pairs| :: pairs[k].0 in labels && pairs[k].1 in labels
    ensures Known(labels, pairs) == |pairs|
  {
    if pairs != [] {
      AllKnown(labels, pairs[..|pairs| - 1]);
    }
  }

  /** When every prediction is a label too, row i of the matrix adds up to
      the number of test rows whose target is labels[i] and column i to the
      number of predictions of labels[i]. */
  lemma ReportMargins(task: string, predictions: seq<Value>, actual: seq<Value>, labels: seq<Value>, i: nat)
    requires |predictions| == |actual| && NoDuplicates(labels) && i < |labels|
    requires forall k | 0 <= k < |actual| :: actual[k] in labels && predictions[k] in labels
    ensures var m := Report(task, predictions, actual, labels).confusionMatrix.matrix;
      && RowSum(m[i]) == Count(actual, labels[i])
      && ColumnSum(m, i) == Count(predictions, labels[i])
  {
    var pairs := Zip(predictions, actual);
    TabulatedSums(labels, pairs);
    MarginsCountLabels(labels, pairs, i);
    assert Actuals(pairs) == actual;
    assert Predicted(pairs) == predictions;
  }

  /** What `evaluate_model` returns: the two error messages, the KeyError
      of a row without the target, the unsupported task, and for a
      supported task a report on one prediction per test row, with at least
      one test row, whose accuracy is the matrix's diagonal over the test
      rows and whose labels are the distinct targets. */
  lemma EvaluationFacts(dataset: Dataset, columns: seq<string>, task: string, params: Params,
                        draws: seq<nat>, choice: nat -> nat, maths: Maths)
    requires Draws(draws, |dataset|) && HasColumns(dataset, columns)
    ensures var r := EvaluationOutcome(dataset, columns, task, params, draws, choice, maths);
      && (dataset == [] ==> r == Ok(Failure(EmptyDataset)))
      && (dataset != [] && params.target == "" ==> r == Ok(Failure(NoTarget)))
      && (dataset != [] && params.target != "" && !HasColumn(dataset, params.target) ==> r == Raise(KeyError))
      && (dataset != [] && params.target != "" && HasColumn(dataset, params.target)
          && task != "decision_tree" && task != "knn" && task != "naive_bayes" && task != "rule_based_1r"
          ==> r == Ok(Failure(UnsupportedTask + task)))
      && (r.Ok? && r.value.Evaluated? ==>
            && dataset != [] && HasColumn(dataset, params.target)
            && var test := Split(dataset, TestSize, draws).1;
            && 1 <= |test|
            && HasColumn(test, params.target)
            && exists ps | |ps| == |test| :: r.value == Report(task, ps, Column(test, params.target), Distinct(Column(dataset, params.target))))
  {
    var r := EvaluationOutcome(dataset, columns, task, params, draws, choice, maths);
    if r.Ok? && r.value.Evaluated? {
      var target := params.target;
      var parts := Split(dataset, TestSize, draws);
      SplitFacts(dataset, TestSize, draws);
      SplitColumns(dataset, draws, columns, target);
      var attrs := Without(columns, target);
      var labels := Distinct(Column(dataset, target));
      assert dataset[0][target] in labels;
      assert HasColumns(parts.0, attrs);
      TaskPredictionsLength(task, parts.0, parts.1, attrs, target, params, labels, choice, maths);
      var ps := TaskPredictions(task, parts.0, parts.1, attrs, target, params, labels, choice, maths).value.value;
      assert r.value == Report(task, ps, Column(parts.1, target), labels);
    }
  }

  /** The report of a supported task on a non-empty dataset. */
  lemma EvaluatedFacts(dataset: Dataset, columns: seq<string>, task: string, params: Params,
                       draws: seq<nat>, choice: nat -> nat, maths: Maths)
    requires Draws(draws, |dataset|) && HasColumns(dataset, columns)
    requires EvaluationOutcome(dataset, columns, task, params, draws, choice, maths).Ok?
    requires EvaluationOutcome(dataset, columns, task, params, draws, choice, maths).value.Evaluated?
    ensures HasColumn(dataset, params.target)
    ensures var e := EvaluationOutcome(dataset, columns, task, params, draws, choice, maths).value;
      var test := Split(dataset, TestSize, draws).1;
      var m := e.confusionMatrix.matrix;
      && e.task == task
      && 0.0 <= e.accuracy <= 100.0
      && e.confusionMatrix.labels == Distinct(Column(dataset, params.target))
      && IsSquare(m, |e.confusionMatrix.labels|)
      && 1 <= |test|
      && Trace(m) as real / |test| as real * 100.0 - 0.005 <= e.accuracy
      && e.accuracy <= Trace(m) as real / |test| as real * 100.0 + 0.005
      && Total(m) <= |test|
      && |e.samplePredictions| == (if |test| < SampleCount then |test| else SampleCount)
  {
    EvaluationFacts(dataset, columns, task, params, draws, choice, maths);
    var e := EvaluationOutcome(dataset, columns, task, params, draws, choice, maths).value;
    var target := params.target;
    var test := Split(dataset, TestSize, draws).1;
    var labels := Distinct(Column(dataset, target));
    var ps :| |ps| == |test| && e == Report(task, ps, Column(test, target), labels);
    SplitFacts(dataset, TestSize, draws);
    ActualAreLabels(dataset, test, target);
    ReportFacts(task, ps, Column(test, target), labels);
  }

  /** As written, a knn or naive_bayes evaluation of a dataset with a
      target column fails with AttributeError, because 20% of a non-empty
      dataset leaves at least one test row. */
  lemma MissingClassifiers(dataset: Dataset, columns: seq<string>, params: Params,
                           draws: seq<nat>, choice: nat -> nat, maths: Maths)
    requires Draws(draws, |dataset|) && HasColumns(dataset, columns)
    requires dataset != [] && HasColumn(dataset, params.target)
    ensures var parts := Split(dataset, TestSize, draws);
      var target := params.target;
      var attrs := Without(columns, target);
      var labels := Distinct(Column(dataset, target));
      && HasColumns(parts.0, attrs) && HasColumn(parts.0, target) && labels != []
      && TaskPredictionsAsWritten("knn", parts.0, parts.1, attrs, target, params, labels, choice, maths)
           == Raise(AttributeError("knn_classify"))
      && TaskPredictionsAsWritten("naive_bayes", parts.0, parts.1, attrs, target, params, labels, choice, maths)
           == Raise(AttributeError("naive_bayes_predict"))
  {
    var target := params.target;
    SplitFacts(dataset, TestSize, draws);
    SplitColumns(dataset, draws, columns, target);
    var attrs := Without(columns, target);
    assert dataset[0][target] in Distinct(Column(dataset, target));
    assert HasColumns(Split(dataset, TestSize, draws).0, attrs);
  }

  /** The decision_tree loop. */
  method PredictAllWithTree(tree: Tree, test: Dataset, labels: seq<Value>, choice: nat -> nat) returns (predictions: seq<Value>)
    requires labels != []
    ensures predictions == TreePredictions(tree, test, labels, choice)
  {
    predictions := [];
    var i := 0;
    while i < |test|
      invariant 0 <= i <= |test|
      invariant predictions == TreePredictions(tree, test, labels, choice)[..i]
    {
      var pred := PredictWithTree(tree, test[i], DefaultLabel(labels, choice, i));
      predictions := predictions + [pred];
      i := i + 1;
    }
  }

  /** The knn loop, with the prediction of `predict_knn`. */
  method PredictAllKnn(train: Dataset, test: Dataset, k: int, attrs: seq<string>, target: string, sqrt: real -> real)
    returns (r: Outcome<seq<Value>>)
    requires HasColumn(train, target)
    ensures r == Collect(KnnOutcomes(train, test, k, attrs, target, sqrt))
  {
    var rs := KnnOutcomes(train, test, k, attrs, target, sqrt);
    var predictions := [];
    var i := 0;
    while i < |test|
      invariant 0 <= i <= |test|
      invariant Collect(rs[..i]) == Ok(predictions)
    {
      var p := PredictKnn(train, test[i], k, attrs, target, sqrt);
      assert rs[..i + 1][..i] == rs[..i];
      if p.Raise? {
        CollectPrefix(rs, i + 1);
        return Raise(p.error);
      }
      predictions := predictions + [p.value.prediction];
      i := i + 1;
    }
    assert rs[..i] == rs;
    r := Ok(predictions);
  }

  /** The naive_bayes loop, with `predict_naive_bayes`. */
  method PredictAllNaiveBayes(model: NaiveBayesModel, test: Dataset, attrs: seq<string>, maths: Maths)
    returns (r: Outcome<seq<Value>>)
    requires forall i | 0 <= i < |test| :: Answers(model, test[i], attrs)
    ensures r == Collect(NaiveBayesOutcomes(model, test, attrs, maths))
  {
    ghost var rs := NaiveBayesOutcomes(model, test, attrs, maths);
    var predictions := [];
    var i := 0;
    while i < |test|
      invariant 0 <= i <= |test|
      invariant Collect(rs[..i]) == Ok(predictions)
    {
      var p := PredictNaiveBayes(model, test[i], attrs, maths);
      assert rs[..i + 1][..i] == rs[..i];
      if p.Raise? {
        CollectPrefix(rs, i + 1);
        return Raise(p.error);
      }
      predictions := predictions + [p.value];
      i := i + 1;
    }
    assert rs[..i] == rs;
    r := Ok(predictions);
  }

  /** The rule_based_1r loop. */
  method PredictAll1R(model: OneRModel, test: Dataset) returns (predictions: seq<Value>)
    ensures predictions == OneRPredictions(model, test)
  {
    predictions := [];
    var i := 0;
    while i < |test|
      invariant 0 <= i <= |test|
      invariant predictions == OneRPredictions(model, test)[..i]
    {
      predictions := predictions + [Predict1R(model, test[i])];
      i := i + 1;
    }
  }
}
