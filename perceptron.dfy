/** The perceptron of classification_logic.py, `train_perceptron`: a
    binary linear classifier trained by the perceptron rule, one pass over
    the rows per epoch, recording the number of mistakes of each epoch. */
module Perceptron {
  import opened Data
  import opened Arith
  import opened Tally
  import opened Ordering

  const NotBinary := "Perceptron requires a binary target attribute."

  /** `{'weights': ..., 'target_map': ..., 'error_per_epoch': ...}` */
  datatype PerceptronModel = PerceptronModel(weights: seq<real>, targetMap: map<Value, int>, errorPerEpoch: seq<int>)

  /** `{val: i for i, val in enumerate(classes)}` for the two classes. */
  function TargetMap(classes: seq<Value>): (m: map<Value, int>)
    requires |classes| == 2 && classes[0] != classes[1]
    ensures m.Keys == {classes[0], classes[1]} && m[classes[0]] == 0 && m[classes[1]] == 1
  {
    map[classes[0] := 0, classes[1] := 1]
  }

  /** `row.get(attr, 0)` where it is a number (a missing attribute reads as 0). */
  function InputOf(row: Row, attr: string): real {
    if attr in row && row[attr].Num? then row[attr].x else 0.0
  }

  /** Every input can be multiplied by a weight: each attribute is missing
      or holds a number. Any other cell makes `weights[i+1] * inputs[i]`
      raise TypeError. */
  predicate Usable(row: Row, attrs: seq<string>) {
    forall a | a in attrs :: a !in row || row[a].Num?
  }

  function Inputs(row: Row, attrs: seq<string>): (xs: seq<real>)
    ensures |xs| == |attrs| && forall i | 0 <= i < |attrs| :: xs[i] == InputOf(row, attrs[i])
  {
    seq(|attrs|, i requires 0 <= i < |attrs| => InputOf(row, attrs[i]))
  }

  /** `sum(weights[i+1] * inputs[i] for i in range(len(attributes)))` */
  function Dot(w: seq<real>, xs: seq<real>): real
    requires |w| == |xs|
  {
    if xs == [] then 0.0
    else Dot(w[..|w| - 1], xs[..|xs| - 1]) + Times(w[|w| - 1], xs[|xs| - 1])
  }

  /** `weights[0] + sum(...)` */
  function Activation(w: seq<real>, xs: seq<real>): real
    requires |w| == |xs| + 1
  {
    w[0] + Dot(w[1..], xs)
  }

  /** `1 if activation >= 0 else 0` */
  function Predict(w: seq<real>, xs: seq<real>): (p: int)
    requires |w| == |xs| + 1
    ensures p == 0 || p == 1
  {
    if Activation(w, xs) >= 0.0 then 1 else 0
  }

  /** The weights after the update with step d = learning_rate * error:
      the bias moves by d, weight i + 1 by d * inputs[i]. */
  function Updated(w: seq<real>, xs: seq<real>, d: real): (w': seq<real>)
    requires |w| == |xs| + 1
    ensures |w'| == |w|
  {
    seq(|w|, j requires 0 <= j < |w| => if j == 0 then w[0] + d else w[j] + Times(d, xs[j - 1]))
  }

  /** The weights and the summed squared error after one pass over rows. */
  datatype EpochState = EpochState(weights: seq<real>, sumError: int)

  predicate Labelled(rows: Dataset, target: string, targetMap: map<Value, int>) {
    forall i | 0 <= i < |rows| :: target in rows[i] && rows[i][target] in targetMap
  }

  predicate AllUsable(rows: Dataset, attrs: seq<string>) {
    forall i | 0 <= i < |rows| :: Usable(rows[i], attrs)
  }

  /** One epoch: for each row in turn, predict, take error = target -
      prediction, add error ** 2, and update the weights. */
  function Epoch(w: seq<real>, rows: Dataset, attrs: seq<string>, target: string,
                 targetMap: map<Value, int>, rate: real): (s: EpochState)
    requires |w| == |attrs| + 1 && Labelled(rows, target, targetMap)
    ensures |s.weights| == |w|
  {
    if rows == [] then EpochState(w, 0)
    else
      var s := Epoch(w, rows[..|rows| - 1], attrs, target, targetMap, rate);
      var row := rows[|rows| - 1];
      var xs := Inputs(row, attrs);
      var e := targetMap[row[target]] - Predict(s.weights, xs);
      EpochState(Updated(s.weights, xs, Times(rate, e as real)), s.sumError + e * e)
  }

  /** The weights and the error list after n epochs. */
  datatype Training = Training(weights: seq<real>, errors: seq<int>)

  function Run(w: seq<real>, rows: Dataset, attrs: seq<string>, target: string,
               targetMap: map<Value, int>, rate: real, n: nat): (t: Training)
    requires |w| == |attrs| + 1 && Labelled(rows, target, targetMap)
    ensures |t.weights| == |w| && |t.errors| == n
  {
    if n == 0 then Training(w, [])
    else
      var t := Run(w, rows, attrs, target, targetMap, rate, n - 1);
      var s := Epoch(t.weights, rows, attrs, target, targetMap, rate);
      Training(s.weights, t.errors + [s.sumError])
  }

  /** `train_perceptron`, with the initial weights (drawn by
      `random.uniform(-0.5, 0.5)` in the source) as a parameter. */
  function PerceptronOutcome(train: Dataset, attrs: seq<string>, target: string, rate: real, epochs: int,
                             initial: seq<real>): Outcome<PerceptronModel>
    requires HasColumn(train, target) && |initial| == |attrs| + 1
  {
    var classes := SortedDistinct(Column(train, target));
    if classes.Raise? then Raise(TypeError)
    else if |classes.value| != 2 then Raise(ValueError(NotBinary))
    else if epochs >= 1 && !AllUsable(train, attrs) then Raise(TypeError)
    else
      var targetMap := TargetMap(classes.value);
      LabelledByClasses(train, target, classes.value);
      var t := Run(initial, train, attrs, target, targetMap, rate, if epochs < 0 then 0 else epochs);
      Ok(PerceptronModel(t.weights, targetMap, t.errors))
  }

  /** The outcome once the two classes are known. */
  lemma OutcomeOfClasses(train: Dataset, attrs: seq<string>, target: string, rate: real, epochs: int,
                         initial: seq<real>, classes: seq<Value>)
    requires HasColumn(train, target) && |initial| == |attrs| + 1
    requires SortedDistinct(Column(train, target)) == Ok(classes) && |classes| == 2
    ensures classes[0] != classes[1] && Labelled(train, target, TargetMap(classes))
    ensures PerceptronOutcome(train, attrs, target, rate, epochs, initial)
            == if epochs >= 1 && !AllUsable(train, attrs) then Raise(TypeError)
               else
                 var t := Run(initial, train, attrs, target, TargetMap(classes), rate, if epochs < 0 then 0 else epochs);
                 Ok(PerceptronModel(t.weights, TargetMap(classes), t.errors))
  {
    LabelledByClasses(train, target, classes);
  }

  /** Every target is one of the classes. */
  lemma LabelledByClasses(train: Dataset, target: string, classes: seq<Value>)
    requires HasColumn(train, target)
    requires |classes| == 2 && classes[0] != classes[1]
    requires forall v | v in Column(train, target) :: v in classes
    ensures Labelled(train, target, TargetMap(classes))
  {
    forall i | 0 <= i < |train| ensures train[i][target] in TargetMap(classes) {
      assert Column(train, target)[i] == train[i][target];
      assert train[i][target] in Column(train, target);
    }
  }

  // ---------------------------------------------------------------------
  // The training loops

  /** `train_perceptron`: the epoch loop around the row loop, updating the
      weight list in place. */
  method TrainPerceptron(train: Dataset, attrs: seq<string>, target: string, rate: real, epochs: int,
                         initial: seq<real>) returns (r: Outcome<PerceptronModel>)
    requires HasColumn(train, target) && |initial| == |attrs| + 1
    ensures r == PerceptronOutcome(train, attrs, target, rate, epochs, initial)
  {
    var classes := SortedDistinct(Column(train, target));
    if classes.Raise? {
      return Raise(TypeError);
    }
    if |classes.value| != 2 {
      return Raise(ValueError(NotBinary));
    }
    OutcomeOfClasses(train, attrs, target, rate, epochs, initial, classes.value);
    var targetMap := TargetMap(classes.value);
    var weights := new real[|initial|](j requires 0 <= j < |initial| => initial[j]);
    assert weights[..] == initial;
    var errors, ok := RunEpochs(weights, train, attrs, target, targetMap, rate, if epochs < 0 then 0 else epochs);
    if !ok {
      return Raise(TypeError);
    }
    r := Ok(PerceptronModel(weights[..], targetMap, errors));
  }

  /** `for epoch in range(epochs)`: the epochs one after the other, each
      appending its summed squared error. It stops with TypeError (`ok`
      false) in the first epoch when some input is not a number. */
  method RunEpochs(weights: array<real>, train: Dataset, attrs: seq<string>, target: string,
                   targetMap: map<Value, int>, rate: real, epochs: nat) returns (errors: seq<int>, ok: bool)
    requires weights.Length == |attrs| + 1 && Labelled(train, target, targetMap)
    modifies weights
    ensures ok <==> epochs == 0 || AllUsable(train, attrs)
    ensures ok ==> Run(old(weights[..]), train, attrs, target, targetMap, rate, epochs) == Training(weights[..], errors)
  {
    ghost var start := weights[..];
    errors := [];
    var epoch := 0;
    while epoch < epochs
      invariant 0 <= epoch <= epochs
      invariant epoch > 0 ==> AllUsable(train, attrs)
      invariant Run(start, train, attrs, target, targetMap, rate, epoch) == Training(weights[..], errors)
    {
      var sumError, usable := RunEpoch(weights, train, attrs, target, targetMap, rate);
      if !usable {
        return [], false;
      }
      errors := errors + [sumError];
      epoch := epoch + 1;
    }
    ok := true;
  }

  /** One epoch: the loop over the rows. It stops with TypeError (`ok`
      false) at the first row with an input that is not a number. */
  method RunEpoch(weights: array<real>, train: Dataset, attrs: seq<string>, target: string,
                  targetMap: map<Value, int>, rate: real) returns (sumError: int, ok: bool)
    requires weights.Length == |attrs| + 1 && Labelled(train, target, targetMap)
    modifies weights
    ensures ok <==> AllUsable(train, attrs)
    ensures ok ==> Epoch(old(weights[..]), train, attrs, target, targetMap, rate) == EpochState(weights[..], sumError)
  {
    ghost var start := weights[..];
    sumError := 0;
    var k := 0;
    while k < |train|
      invariant 0 <= k <= |train|
      invariant AllUsable(train[..k], attrs)
      invariant Epoch(start, train[..k], attrs, target, targetMap, rate) == EpochState(weights[..], sumError)
    {
      var row := train[k];
      if !Usable(row, attrs) {
        return 0, false;
      }
      EpochPrefix(train, k, attrs, target, targetMap);
      ghost var before := EpochState(weights[..], sumError);
      var error := TrainRow(weights, Inputs(row, attrs), targetMap[row[target]], rate);
      EpochStep(start, train, k, attrs, target, targetMap, rate, before, error);
      sumError := sumError + error * error;
      k := k + 1;
    }
    assert train[..k] == train;
    ok := true;
  }

  /** The body of the row loop: predict, take the error against the
      target t, and update the weights by it. */
  method TrainRow(weights: array<real>, inputs: seq<real>, t: int, rate: real) returns (error: int)
    requires weights.Length == |inputs| + 1
    modifies weights
    ensures error == t - Predict(old(weights[..]), inputs)
    ensures weights[..] == Updated(old(weights[..]), inputs, Times(rate, error as real))
  {
    var prediction := if Activation(weights[..], inputs) >= 0.0 then 1 else 0;
    error := t - prediction;
    UpdateWeights(weights, inputs, Times(rate, error as real));
  }

  /** The prefixes of labelled rows are labelled, and a usable row extends
      a usable prefix. */
  lemma EpochPrefix(rows: Dataset, k: nat, attrs: seq<string>, target: string, targetMap: map<Value, int>)
    requires Labelled(rows, target, targetMap) && k < |rows|
    ensures Labelled(rows[..k], target, targetMap) && Labelled(rows[..k + 1], target, targetMap)
    ensures AllUsable(rows[..k], attrs) && Usable(rows[k], attrs) ==> AllUsable(rows[..k + 1], attrs)
  {
    assert forall i | 0 <= i < k + 1 :: rows[..k + 1][i] == rows[i];
  }

  /** One more row of the epoch: from state s after k rows, the error e
      of row k updates the weights and adds its square. */
  lemma EpochStep(w: seq<real>, rows: Dataset, k: nat, attrs: seq<string>, target: string,
                  targetMap: map<Value, int>, rate: real, s: EpochState, e: int)
    requires |w| == |attrs| + 1 && Labelled(rows, target, targetMap) && k < |rows|
    requires Labelled(rows[..k], target, targetMap) && Labelled(rows[..k + 1], target, targetMap)
    requires s == Epoch(w, rows[..k], attrs, target, targetMap, rate)
    requires e == targetMap[rows[k][target]] - Predict(s.weights, Inputs(rows[k], attrs))
    ensures Epoch(w, rows[..k + 1], attrs, target, targetMap, rate)
      == EpochState(Updated(s.weights, Inputs(rows[k], attrs), Times(rate, e as real)), s.sumError + e * e)
  {
    assert rows[..k + 1][..k] == rows[..k];
  }

  /** `weights[0] += learning_rate * error` and, for every attribute,
      `weights[i+1] += learning_rate * error * inputs[i]`. */
  method UpdateWeights(weights: array<real>, inputs: seq<real>, d: real)
    requires weights.Length == |inputs| + 1
    modifies weights
    ensures weights[..] == Updated(old(weights[..]), inputs, d)
  {
    weights[0] := weights[0] + d;
    var i := 0;
    while i < |inputs|
      invariant 0 <= i <= |inputs|
      invariant weights[0] == old(weights[0]) + d
      invariant forall j | 1 <= j <= i :: weights[j] == old(weights[j]) + Times(d, inputs[j - 1])
      invariant forall j | i < j < weights.Length :: weights[j] == old(weights[j])
    {
      weights[i + 1] := weights[i + 1] + Times(d, inputs[i]);
      i := i + 1;
    }
  }

  // ---------------------------------------------------------------------
  // What train_perceptron promises

  /** TypeError when the targets cannot be sorted, ValueError unless there
      are exactly two classes, TypeError when some row has a non-number
      input and there is an epoch to run; otherwise one weight per
      attribute plus the bias, the classes mapped to 0 and 1 in sorted
      order, and one error count per epoch. */
  lemma PerceptronFacts(train: Dataset, attrs: seq<string>, target: string, rate: real, epochs: int, initial: seq<real>)
    requires HasColumn(train, target) && |initial| == |attrs| + 1
    ensures var r := PerceptronOutcome(train, attrs, target, rate, epochs, initial);
      var classes := SortedDistinct(Column(train, target));
      && (classes.Raise? ==> r == Raise(TypeError))
      && (classes.Ok? && |classes.value| != 2 ==> r == Raise(ValueError(NotBinary)))
      && (classes.Ok? && |classes.value| == 2 ==>
            && (r.Raise? <==> epochs >= 1 && exists i | 0 <= i < |train| :: !Usable(train[i], attrs))
            && (r.Ok? ==>
                  && |r.value.weights| == |attrs| + 1
                  && |r.value.errorPerEpoch| == (if epochs < 0 then 0 else epochs)
                  && ValueLe(classes.value[0], classes.value[1])
                  && r.value.targetMap == map[classes.value[0] := 0, classes.value[1] := 1]
                  && forall e | 0 <= e < |r.value.errorPerEpoch| :: 0 <= r.value.errorPerEpoch[e] <= |train|))
  {
    var classes := SortedDistinct(Column(train, target));
    if classes.Ok? && |classes.value| == 2 {
      OutcomeOfClasses(train, attrs, target, rate, epochs, initial, classes.value);
      if !(epochs >= 1 && !AllUsable(train, attrs)) {
        var targetMap := TargetMap(classes.value);
        assert Binary(targetMap);
        assert ValueLe(classes.value[0], classes.value[1]);
        RunErrorsBounded(initial, train, attrs, target, targetMap, rate, if epochs < 0 then 0 else epochs);
      }
    }
  }

  /** The classes map to 0 and 1. */
  predicate Binary(targetMap: map<Value, int>) {
    forall v | v in targetMap :: targetMap[v] == 0 || targetMap[v] == 1
  }

  /** Each epoch's error is the number of rows it mispredicts, so it lies
      between 0 and the number of rows. */
  lemma {:induction false} EpochErrorBounded(w: seq<real>, rows: Dataset, attrs: seq<string>, target: string,
                                             targetMap: map<Value, int>, rate: real)
    requires |w| == |attrs| + 1 && Labelled(rows, target, targetMap) && Binary(targetMap)
    ensures 0 <= Epoch(w, rows, attrs, target, targetMap, rate).sumError <= |rows|
  {
    if rows != [] {
      var init := rows[..|rows| - 1];
      assert Labelled(init, target, targetMap) by {
        assert forall i | 0 <= i < |init| :: init[i] == rows[i];
      }
      EpochErrorBounded(w, init, attrs, target, targetMap, rate);
    }
  }

  lemma {:induction false} RunErrorsBounded(w: seq<real>, rows: Dataset, attrs: seq<string>, target: string,
                                            targetMap: map<Value, int>, rate: real, n: nat)
    requires |w| == |attrs| + 1 && Labelled(rows, target, targetMap) && Binary(targetMap)
    ensures forall e | 0 <= e < n :: 0 <= Run(w, rows, attrs, target, targetMap, rate, n).errors[e] <= |rows|
  {
    if n > 0 {
      RunErrorsBounded(w, rows, attrs, target, targetMap, rate, n - 1);
      var t := Run(w, rows, attrs, target, targetMap, rate, n - 1);
      EpochErrorBounded(t.weights, rows, attrs, target, targetMap, rate);
      var s := Epoch(t.weights, rows, attrs, target, targetMap, rate);
      var errors := Run(w, rows, attrs, target, targetMap, rate, n).errors;
      assert errors == t.errors + [s.sumError];
      forall e | 0 <= e < n ensures 0 <= errors[e] <= |rows| {
        if e < n - 1 {
          assert errors[e] == t.errors[e];
          assert 0 <= t.errors[e] <= |rows|;
        } else {
          assert errors[e] == s.sumError;
        }
      }
    }
  }

  /** An epoch without a mistake leaves the weights as they were. */
  lemma {:induction false} ZeroErrorEpoch(w: seq<real>, rows: Dataset, attrs: seq<string>, target: string,
                                          targetMap: map<Value, int>, rate: real)
    requires |w| == |attrs| + 1 && Labelled(rows, target, targetMap)
    requires Epoch(w, rows, attrs, target, targetMap, rate).sumError == 0
    ensures Epoch(w, rows, attrs, target, targetMap, rate).weights == w
  {
    if rows != [] {
      var init := rows[..|rows| - 1];
      assert Labelled(init, target, targetMap) by {
        assert forall i | 0 <= i < |init| :: init[i] == rows[i];
      }
      SumErrorNonNegative(w, init, attrs, target, targetMap, rate);
      var s := Epoch(w, init, attrs, target, targetMap, rate);
      var row := rows[|rows| - 1];
      var e := targetMap[row[target]] - Predict(s.weights, Inputs(row, attrs));
      assert e * e >= 0;
      assert s.sumError == 0 && e == 0;
      ZeroErrorEpoch(w, init, attrs, target, targetMap, rate);
      ZeroStep(w, Inputs(row, attrs), rate);
    }
  }

  /** An update with error 0 changes nothing. */
  lemma ZeroStep(w: seq<real>, xs: seq<real>, rate: real)
    requires |w| == |xs| + 1
    ensures Updated(w, xs, Times(rate, 0.0)) == w
  {
    assert Times(rate, 0.0) == 0.0;
    forall j | 0 <= j < |xs| ensures Times(0.0, xs[j]) == 0.0 {
      TimesZero(xs[j]);
    }
  }

  lemma {:induction false} SumErrorNonNegative(w: seq<real>, rows: Dataset, attrs: seq<string>, target: string,
                                               targetMap: map<Value, int>, rate: real)
    requires |w| == |attrs| + 1 && Labelled(rows, target, targetMap)
    ensures Epoch(w, rows, attrs, target, targetMap, rate).sumError >= 0
  {
    if rows != [] {
      var init := rows[..|rows| - 1];
      assert Labelled(init, target, targetMap) by {
        assert forall i | 0 <= i < |init| :: init[i] == rows[i];
      }
      SumErrorNonNegative(w, init, attrs, target, targetMap, rate);
    }
  }

  /** Training that reaches an epoch without a mistake has converged:
      every later epoch makes no mistake and keeps the weights. */
  lemma {:induction false} Converged(w: seq<real>, rows: Dataset, attrs: seq<string>, target: string,
                                     targetMap: map<Value, int>, rate: real, n: nat)
    requires |w| == |attrs| + 1 && Labelled(rows, target, targetMap)
    requires Epoch(w, rows, attrs, target, targetMap, rate).sumError == 0
    ensures var t := Run(w, rows, attrs, target, targetMap, rate, n);
      t.weights == w && forall e | 0 <= e < n :: t.errors[e] == 0
  {
    if n > 0 {
      Converged(w, rows, attrs, target, targetMap, rate, n - 1);
      ZeroErrorEpoch(w, rows, attrs, target, targetMap, rate);
    }
  }
}
