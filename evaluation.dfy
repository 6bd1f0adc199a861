/** The helpers of evaluation_logic.py: the shuffled train/test split,
    prediction with a decision tree, the confusion matrix and the accuracy
    figure of `evaluate_model`. */
module Evaluation {
  import opened Data
  import opened Arith
  import opened Tally
  import opened DecisionTree

  // ---------------------------------------------------------------------
  // train_test_split

  /** The draws `random.shuffle` makes on a list of n elements: for each
      position i from n - 1 down to 1 an index `randbelow(i + 1)`, kept at
      draws[i] (draws[0] is never used, and 0). */
  predicate Draws(draws: seq<nat>, n: nat) {
    |draws| == n && forall i | 0 <= i < n :: draws[i] <= i
  }

  /** `x[i], x[j] = x[j], x[i]` */
  function Swap<T>(s: seq<T>, i: nat, j: nat): (r: seq<T>)
    requires i < |s| && j < |s|
    ensures |r| == |s| && r[i] == s[j] && r[j] == s[i]
    ensures forall k | 0 <= k < |s| && k != i && k != j :: r[k] == s[k]
    ensures multiset(r) == multiset(s)
  {
    s[i := s[j]][j := s[i]]
  }

  /** The list after the swaps of the positions k - 1 down to 1: a
      reordering that leaves the positions from k on as they were. */
  function ShuffledBelow<T>(s: seq<T>, draws: seq<nat>, k: nat): (r: seq<T>)
    requires Draws(draws, |s|) && k <= |s|
    ensures |r| == |s| && multiset(r) == multiset(s)
    ensures forall i | k <= i < |s| :: r[i] == s[i]
    decreases k
  {
    if k <= 1 then s
    else ShuffledBelow(Swap(s, k - 1, draws[k - 1]), draws, k - 1)
  }

  /** `random.shuffle(x)` with the given draws. */
  function Shuffled<T>(s: seq<T>, draws: seq<nat>): seq<T>
    requires Draws(draws, |s|)
  {
    ShuffledBelow(s, draws, |s|)
  }

  /** `random.shuffle`: for i from n - 1 down to 1, swap x[i] with the
      element at the index drawn for i. */
  method Shuffle<T>(a: array<T>, draws: seq<nat>)
    requires Draws(draws, a.Length)
    modifies a
    ensures a[..] == Shuffled(old(a[..]), draws)
  {
    var k := a.Length;
    while k > 1
      invariant 0 <= k <= a.Length
      invariant ShuffledBelow(a[..], draws, k) == Shuffled(old(a[..]), draws)
    {
      var j := draws[k - 1];
      ghost var before := a[..];
      a[k - 1], a[j] := a[j], a[k - 1];
      assert a[..] == Swap(before, k - 1, j);
      k := k - 1;
    }
  }

  /** `int(len(data) * (1 - test_size))`, as the bound of the slices. */
  function SplitIndex(n: nat, testSize: real): (e: nat)
    ensures e <= n
  {
    SliceEnd(n, Trunc(Times(1.0 - testSize, n as real)))
  }

  /** `data[:split_idx], data[split_idx:]` of the shuffled copy. */
  function Split(dataset: Dataset, testSize: real, draws: seq<nat>): (Dataset, Dataset)
    requires Draws(draws, |dataset|)
  {
    var data := Shuffled(dataset, draws);
    var e := SplitIndex(|data|, testSize);
    (data[..e], data[e..])
  }

  /** `train_test_split`: shuffle a copy of the rows in place and cut it.
      The caller's list is a value here, so it cannot change. */
  method TrainTestSplit(dataset: Dataset, testSize: real, draws: seq<nat>) returns (train: Dataset, test: Dataset)
    requires Draws(draws, |dataset|)
    ensures (train, test) == Split(dataset, testSize, draws)
  {
    var data := new Row[|dataset|](i requires 0 <= i < |dataset| => dataset[i]);
    assert data[..] == dataset;
    Shuffle(data, draws);
    assert data[..] == Shuffled(dataset, draws) && data.Length == |dataset|;
    var e := SplitIndex(data.Length, testSize);
    train, test := data[..e], data[e..];
    assert train == Shuffled(dataset, draws)[..e] && test == Shuffled(dataset, draws)[e..];
  }

  /** The two parts together are a reordering of the rows; for a test size
      between 0 and 1 the training part has floor(n * (1 - test_size))
      rows, so with the 0.2 evaluate_model uses it has floor(4n / 5) and
      the test part is never empty when there are rows. */
  lemma SplitFacts(dataset: Dataset, testSize: real, draws: seq<nat>)
    requires Draws(draws, |dataset|)
    ensures var parts := Split(dataset, testSize, draws);
      && parts.0 + parts.1 == Shuffled(dataset, draws)
      && multiset(parts.0) + multiset(parts.1) == multiset(dataset)
      && (0.0 <= testSize <= 1.0 ==> |parts.0| == Times(1.0 - testSize, |dataset| as real).Floor)
      && (testSize == 0.2 ==> |parts.0| == 4 * |dataset| / 5)
      && (testSize == 0.2 && dataset != [] ==> parts.1 != [])
  {
    var data := Shuffled(dataset, draws);
    assert |data| == |dataset|;
    var e := SplitIndex(|dataset|, testSize);
    assert data[..e] + data[e..] == data;
    assert |Split(dataset, testSize, draws).0| == e;
    if 0.0 <= testSize <= 1.0 {
      SplitIndexFloor(|dataset|, testSize);
      assert e == Times(1.0 - testSize, |dataset| as real).Floor;
    }
    if testSize == 0.2 {
      SplitIndexFifth(|dataset|);
    }
  }

  lemma SplitIndexFloor(n: nat, testSize: real)
    requires 0.0 <= testSize <= 1.0
    ensures SplitIndex(n, testSize) == Times(1.0 - testSize, n as real).Floor
  {
    NonNegativeProduct(1.0 - testSize, n as real);
    MonotoneProduct(1.0 - testSize, 1.0, n as real);
    assert 0.0 <= Times(1.0 - testSize, n as real) <= n as real;
  }

  lemma SplitIndexFifth(n: nat)
    ensures SplitIndex(n, 0.2) == 4 * n / 5
  {
    var q := 4 * n / 5;
    assert Times(1.0 - 0.2, n as real) == 4.0 * n as real / 5.0;
    assert q as real <= 4.0 * n as real / 5.0 < q as real + 1.0;
  }

  /** With every draw its own position nothing moves. */
  lemma {:induction false} ShuffleWithoutMoves<T>(s: seq<T>, draws: seq<nat>, k: nat)
    requires Draws(draws, |s|) && k <= |s|
    requires forall i | 0 <= i < |s| :: draws[i] == i
    ensures ShuffledBelow(s, draws, k) == s
  {
    if k > 1 {
      assert Swap(s, k - 1, draws[k - 1]) == s;
      ShuffleWithoutMoves(s, draws, k - 1);
    }
  }

  /** The last position ends up with the element drawn for it: the first
      swap fixes it and the later ones stay below it. */
  lemma LastDrawn<T>(s: seq<T>, draws: seq<nat>)
    requires Draws(draws, |s|) && |s| >= 2
    ensures Shuffled(s, draws)[|s| - 1] == s[draws[|s| - 1]]
  {
    var k := |s|;
    assert Shuffled(s, draws) == ShuffledBelow(Swap(s, k - 1, draws[k - 1]), draws, k - 1);
  }

  /** The rows of a part are rows of the data, so they carry its columns. */
  lemma PartColumns(dataset: Dataset, part: Dataset, column: string)
    requires multiset(part) <= multiset(dataset)
    requires HasColumn(dataset, column)
    ensures HasColumn(part, column)
  {
    forall i | 0 <= i < |part| ensures column in part[i] {
      assert part[i] in multiset(part);
      assert part[i] in multiset(dataset);
      var j :| 0 <= j < |dataset| && dataset[j] == part[i];
    }
  }

  // ---------------------------------------------------------------------
  // predict_with_tree

  /** `predict_with_tree`: a leaf answers its value; a node follows the
      branch for the instance's value of its attribute, and answers default
      when the instance lacks the attribute or no branch has its value. */
  function PredictWithTree(t: Tree, instance: Row, default: Value): Value
  {
    match t
    case Leaf(x) => x
    case Node(a, branches) =>
      if a !in instance then default
      else if instance[a] in branches then PredictWithTree(branches[instance[a]], instance, default)
      else default
  }

  /** The instance's values lead from the root of t down to the subtree s
      (a path of branch choices). */
  predicate Leads(t: Tree, instance: Row, path: seq<Value>, s: Tree)
    decreases |path|
  {
    if path == [] then s == t
    else
      && t.Node? && t.attr in instance && instance[t.attr] == path[0] && path[0] in t.branches
      && Leads(t.branches[path[0]], instance, path[1..], s)
  }

  /** The prediction is the leaf the instance's values lead to, or else
      default at the node where they stop: an attribute the instance lacks
      or a value without a branch. */
  lemma {:induction false} PredictionFollowsPath(t: Tree, instance: Row, default: Value)
    ensures var r := PredictWithTree(t, instance, default);
      exists path, s :: Leads(t, instance, path, s) &&
        ((s.Leaf? && r == s.target) ||
         (s.Node? && (s.attr !in instance || instance[s.attr] !in s.branches) && r == default))
  {
    var r := PredictWithTree(t, instance, default);
    match t
    case Leaf(x) =>
      assert Leads(t, instance, [], t);
    case Node(a, branches) =>
      if a !in instance || instance[a] !in branches {
        assert Leads(t, instance, [], t);
      } else {
        var v := instance[a];
        PredictionFollowsPath(branches[v], instance, default);
        var path, s :| Leads(branches[v], instance, path, s) &&
          ((s.Leaf? && r == s.target) ||
           (s.Node? && (s.attr !in instance || instance[s.attr] !in s.branches) && r == default));
        assert ([v] + path)[1..] == path;
        assert Leads(t, instance, [v] + path, s);
      }
  }

  /** Every answer is a leaf of the tree or the default. */
  lemma {:induction false} PredictionIsLeafOrDefault(t: Tree, instance: Row, default: Value, targets: seq<Value>)
    requires LeavesIn(t, targets)
    ensures PredictWithTree(t, instance, default) in targets || PredictWithTree(t, instance, default) == default
  {
    match t
    case Leaf(_) =>
    case Node(a, branches) =>
      if a in instance && instance[a] in branches {
        PredictionIsLeafOrDefault(branches[instance[a]], instance, default, targets);
      }
  }

  // ---------------------------------------------------------------------
  // generate_confusion_matrix

  /** `{"labels": ..., "matrix": ...}` */
  datatype ConfusionMatrix = ConfusionMatrix(labels: seq<Value>, matrix: seq<seq<int>>)

  /** `zip(predictions, actual)`: (predicted, actual) pairs up to the
      shorter list's length. */
  function Zip(predictions: seq<Value>, actual: seq<Value>): (z: seq<(Value, Value)>)
    ensures |z| == if |predictions| < |actual| then |predictions| else |actual|
    ensures forall k | 0 <= k < |z| :: z[k] == (predictions[k], actual[k])
  {
    var n := if |predictions| < |actual| then |predictions| else |actual|;
    seq(n, k requires 0 <= k < n => (predictions[k], actual[k]))
  }

  /** `label_to_idx.get(v)`: the index of the last occurrence of v in the
      labels (the dict comprehension keeps the last), None for a value that
      is not a label. */
  function LabelIndex(labels: seq<Value>, v: Value): (r: Option<nat>)
    ensures r.None? <==> v !in labels
    ensures r.Some? ==> r.value < |labels| && labels[r.value] == v
    ensures r.Some? ==> forall j | r.value < j < |labels| :: labels[j] != v
  {
    if labels == [] then None
    else if labels[|labels| - 1] == v then Some(|labels| - 1)
    else LabelIndex(labels[..|labels| - 1], v)
  }

  /** Index i is where its label last occurs, so it is the one the matrix
      counts that label at. */
  predicate IsLast(labels: seq<Value>, i: nat)
    requires i < |labels|
  {
    forall j | i < j < |labels| :: labels[j] != labels[i]
  }

  predicate IsSquare(m: seq<seq<int>>, n: nat) {
    |m| == n && forall i | 0 <= i < n :: |m[i]| == n
  }

  /** `[[0 for _ in class_labels] for _ in class_labels]` */
  function Zeros(n: nat): (m: seq<seq<int>>)
    ensures IsSquare(m, n)
    ensures forall i, j | 0 <= i < n && 0 <= j < n :: m[i][j] == 0
  {
    seq(n, i requires 0 <= i < n => seq(n, j requires 0 <= j < n => 0))
  }

  /** `matrix[i][j] += 1` */
  function Increment(m: seq<seq<int>>, i: nat, j: nat): (m': seq<seq<int>>)
    requires i < |m| && j < |m[i]|
  {
    m[i := m[i][j := m[i][j] + 1]]
  }

  /** The matrix after counting the pairs in order: a pair (predicted,
      actual) adds one at row `label_to_idx[actual]`, column
      `label_to_idx[predicted]`, and a pair with a value outside the labels
      adds nothing. */
  function Tabulated(labels: seq<Value>, pairs: seq<(Value, Value)>): (m: seq<seq<int>>)
    ensures IsSquare(m, |labels|)
  {
    if pairs == [] then Zeros(|labels|)
    else
      var m := Tabulated(labels, pairs[..|pairs| - 1]);
      var i := LabelIndex(labels, pairs[|pairs| - 1].1);
      var j := LabelIndex(labels, pairs[|pairs| - 1].0);
      if i.Some? && j.Some? then Increment(m, i.value, j.value) else m
  }

  /** `generate_confusion_matrix`: the counting loop over the zipped pairs. */
  method GenerateConfusionMatrix(predictions: seq<Value>, actual: seq<Value>, labels: seq<Value>)
    returns (cm: ConfusionMatrix)
    ensures cm == ConfusionMatrix(labels, Tabulated(labels, Zip(predictions, actual)))
  {
    var matrix := Zeros(|labels|);
    var pairs := Zip(predictions, actual);
    var k := 0;
    while k < |pairs|
      invariant 0 <= k <= |pairs|
      invariant matrix == Tabulated(labels, pairs[..k])
    {
      var (pred, act) := pairs[k];
      var i := LabelIndex(labels, act);
      var j := LabelIndex(labels, pred);
      assert pairs[..k + 1][..k] == pairs[..k];
      if i.Some? && j.Some? {
        matrix := matrix[i.value := matrix[i.value][j.value := matrix[i.value][j.value] + 1]];
      }
      k := k + 1;
    }
    assert pairs[..k] == pairs;
    cm := ConfusionMatrix(labels, matrix);
  }

  /** label_to_idx maps v to i exactly when i is where v last occurs. */
  lemma LabelIndexIsLast(labels: seq<Value>, v: Value, i: nat)
    ensures LabelIndex(labels, v) == Some(i) <==> i < |labels| && labels[i] == v && IsLast(labels, i)
  {
  }

  /** Entry [i][j] counts the pairs with actual labels[i] and predicted
      labels[j]; an index whose label occurs again later stays 0. */
  lemma {:induction false} TabulatedCells(labels: seq<Value>, pairs: seq<(Value, Value)>, i: nat, j: nat)
    requires i < |labels| && j < |labels|
    ensures Tabulated(labels, pairs)[i][j]
            == if IsLast(labels, i) && IsLast(labels, j) then Count(pairs, (labels[j], labels[i])) else 0
  {
    if pairs != [] {
      var init := pairs[..|pairs| - 1];
      TabulatedCells(labels, init, i, j);
      var (p, a) := pairs[|pairs| - 1];
      LabelIndexIsLast(labels, a, i);
      LabelIndexIsLast(labels, p, j);
      CellStep(labels, pairs, i, j);
    }
  }

  /** One more pair adds one at [i][j] exactly when its actual value is
      counted at row i and its predicted value at column j. */
  lemma CellStep(labels: seq<Value>, pairs: seq<(Value, Value)>, i: nat, j: nat)
    requires pairs != [] && i < |labels| && j < |labels|
    ensures var (p, a) := pairs[|pairs| - 1];
      && Tabulated(labels, pairs)[i][j] == Tabulated(labels, pairs[..|pairs| - 1])[i][j]
           + (if LabelIndex(labels, a) == Some(i) && LabelIndex(labels, p) == Some(j) then 1 else 0)
      && Count(pairs, (labels[j], labels[i])) == Count(pairs[..|pairs| - 1], (labels[j], labels[i]))
           + (if (p, a) == (labels[j], labels[i]) then 1 else 0)
  {
  }

  /** `sum(row)` */
  function RowSum(row: seq<int>): int {
    if row == [] then 0 else RowSum(row[..|row| - 1]) + row[|row| - 1]
  }

  /** The sum of all entries. */
  function Total(m: seq<seq<int>>): int {
    if m == [] then 0 else Total(m[..|m| - 1]) + RowSum(m[|m| - 1])
  }

  /** The sum of column j. */
  function ColumnSum(m: seq<seq<int>>, j: nat): int
    requires forall i | 0 <= i < |m| :: j < |m[i]|
  {
    if m == [] then 0 else ColumnSum(m[..|m| - 1], j) + m[|m| - 1][j]
  }

  /** The sum of the diagonal. */
  function Trace(m: seq<seq<int>>): int
    requires forall i | 0 <= i < |m| :: i < |m[i]|
  {
    if m == [] then 0 else Trace(m[..|m| - 1]) + m[|m| - 1][|m| - 1]
  }

  /** The pairs whose values are both labels. */
  function Known(labels: seq<Value>, pairs: seq<(Value, Value)>): (n: nat)
    ensures n <= |pairs|
  {
    if pairs == [] then 0
    else Known(labels, pairs[..|pairs| - 1]) + if pairs[|pairs| - 1].0 in labels && pairs[|pairs| - 1].1 in labels then 1 else 0
  }

  /** The pairs with a predicted value among the labels and an actual value
      counted at row i. */
  function ActualAt(labels: seq<Value>, pairs: seq<(Value, Value)>, i: nat): nat {
    if pairs == [] then 0
    else
      var (p, a) := pairs[|pairs| - 1];
      ActualAt(labels, pairs[..|pairs| - 1], i) + if p in labels && LabelIndex(labels, a) == Some(i) then 1 else 0
  }

  /** The pairs with an actual value among the labels and a predicted value
      counted at column j. */
  function PredictedAt(labels: seq<Value>, pairs: seq<(Value, Value)>, j: nat): nat {
    if pairs == [] then 0
    else
      var (p, a) := pairs[|pairs| - 1];
      PredictedAt(labels, pairs[..|pairs| - 1], j) + if a in labels && LabelIndex(labels, p) == Some(j) then 1 else 0
  }

  /** The pairs with equal values that are labels. */
  function KnownAgreements(labels: seq<Value>, pairs: seq<(Value, Value)>): nat {
    if pairs == [] then 0
    else
      var (p, a) := pairs[|pairs| - 1];
      KnownAgreements(labels, pairs[..|pairs| - 1]) + if p == a && a in labels then 1 else 0
  }

  /** The entries add up to the number of pairs with both values known; row
      i adds up to the known pairs counted with actual row i, column j to
      those counted with predicted column j; the diagonal to the known
      pairs whose prediction is right. */
  lemma {:induction false} TabulatedSums(labels: seq<Value>, pairs: seq<(Value, Value)>)
    ensures var m := Tabulated(labels, pairs);
      && Total(m) == Known(labels, pairs)
      && Trace(m) == KnownAgreements(labels, pairs)
      && (forall i | 0 <= i < |labels| :: RowSum(m[i]) == ActualAt(labels, pairs, i))
      && (forall j | 0 <= j < |labels| :: ColumnSum(m, j) == PredictedAt(labels, pairs, j))
  {
    var n := |labels|;
    if pairs == [] {
      ZerosSums(n);
    } else {
      var init := pairs[..|pairs| - 1];
      TabulatedSums(labels, init);
      var m := Tabulated(labels, init);
      var (p, a) := pairs[|pairs| - 1];
      var ia := LabelIndex(labels, a);
      var ip := LabelIndex(labels, p);
      if ia.Some? && ip.Some? {
        IncrementSums(m, n, ia.value, ip.value);
        assert ia.value == ip.value <==> p == a;
      }
    }
  }

  /** The sums of the zero matrix. */
  lemma ZerosSums(n: nat)
    ensures var m := Zeros(n);
      && Total(m) == 0 && Trace(m) == 0
      && (forall i | 0 <= i < n :: RowSum(m[i]) == 0)
      && (forall j | 0 <= j < n :: ColumnSum(m, j) == 0)
  {
    var m := Zeros(n);
    forall i | 0 <= i < n ensures RowSum(m[i]) == 0 {
      ZeroRowSum(m[i]);
    }
    ZeroSums(m, n);
  }

  lemma {:induction false} ZeroRowSum(row: seq<int>)
    requires forall j | 0 <= j < |row| :: row[j] == 0
    ensures RowSum(row) == 0
  {
    if row != [] {
      ZeroRowSum(row[..|row| - 1]);
    }
  }

  lemma {:induction false} ZeroSums(m: seq<seq<int>>, n: nat)
    requires |m| <= n && forall i | 0 <= i < |m| :: |m[i]| == n && RowSum(m[i]) == 0
    requires forall i, j | 0 <= i < |m| && 0 <= j < n :: m[i][j] == 0
    ensures Total(m) == 0
    ensures Trace(m) == 0
    ensures forall j | 0 <= j < n :: ColumnSum(m, j) == 0
  {
    if m != [] {
      ZeroSums(m[..|m| - 1], n);
    }
  }

  /** Adding one at [i][j] adds one to the total, to row i, to column j,
      and to the diagonal when i == j. */
  lemma IncrementSums(m: seq<seq<int>>, n: nat, i: nat, j: nat)
    requires IsSquare(m, n) && i < n && j < n
    ensures var m' := Increment(m, i, j);
      && Total(m') == Total(m) + 1
      && Trace(m') == Trace(m) + (if i == j then 1 else 0)
      && (forall k | 0 <= k < n :: RowSum(m'[k]) == RowSum(m[k]) + (if k == i then 1 else 0))
      && (forall c | 0 <= c < n :: ColumnSum(m', c) == ColumnSum(m, c) + (if c == j then 1 else 0))
  {
    var m' := Increment(m, i, j);
    RowSumIncrement(m[i], j);
    TotalOfUpdate(m, i, m'[i]);
    TraceOfUpdate(m, n, i, j);
    forall c | 0 <= c < n ensures ColumnSum(m', c) == ColumnSum(m, c) + (if c == j then 1 else 0) {
      ColumnSumOfUpdate(m, n, i, j, c);
    }
  }

  lemma {:induction false} RowSumIncrement(row: seq<int>, j: nat)
    requires j < |row|
    ensures RowSum(row[j := row[j] + 1]) == RowSum(row) + 1
  {
    var row' := row[j := row[j] + 1];
    assert row'[..|row'| - 1] == if j == |row| - 1 then row[..|row| - 1] else row[..|row| - 1][j := row[j] + 1];
    if j < |row| - 1 {
      RowSumIncrement(row[..|row| - 1], j);
    }
  }

  lemma {:induction false} TotalOfUpdate(m: seq<seq<int>>, i: nat, r: seq<int>)
    requires i < |m| && RowSum(r) == RowSum(m[i]) + 1
    ensures Total(m[i := r]) == Total(m) + 1
  {
    var m' := m[i := r];
    if i < |m| - 1 {
      assert m'[..|m'| - 1] == m[..|m| - 1][i := r];
      TotalOfUpdate(m[..|m| - 1], i, r);
    } else {
      assert m'[..|m'| - 1] == m[..|m| - 1];
    }
  }

  lemma {:induction false} TraceOfUpdate(m: seq<seq<int>>, n: nat, i: nat, j: nat)
    requires |m| <= n && (forall k | 0 <= k < |m| :: |m[k]| == n) && i < |m| && j < n
    ensures Trace(Increment(m, i, j)) == Trace(m) + (if i == j then 1 else 0)
  {
    var m' := Increment(m, i, j);
    if i < |m| - 1 {
      assert m'[..|m'| - 1] == Increment(m[..|m| - 1], i, j);
      TraceOfUpdate(m[..|m| - 1], n, i, j);
    } else {
      assert m'[..|m'| - 1] == m[..|m| - 1];
    }
  }

  lemma {:induction false} ColumnSumOfUpdate(m: seq<seq<int>>, n: nat, i: nat, j: nat, c: nat)
    requires |m| <= n && (forall k | 0 <= k < |m| :: |m[k]| == n) && i < |m| && j < n && c < n
    ensures ColumnSum(Increment(m, i, j), c) == ColumnSum(m, c) + (if c == j then 1 else 0)
  {
    var m' := Increment(m, i, j);
    if i < |m| - 1 {
      assert m'[..|m'| - 1] == Increment(m[..|m| - 1], i, j);
      ColumnSumOfUpdate(m[..|m| - 1], n, i, j, c);
    } else {
      assert m'[..|m'| - 1] == m[..|m| - 1];
    }
  }

  /** When every actual value is a label the known agreements are all the
      agreements, the numerator of the accuracy. */
  lemma {:induction false} AgreementsKnown(labels: seq<Value>, pairs: seq<(Value, Value)>)
    requires forall k | 0 <= k < |pairs| :: pairs[k].1 in labels
    ensures KnownAgreements(labels, pairs) == Correct(pairs)
  {
    if pairs != [] {
      AgreementsKnown(labels, pairs[..|pairs| - 1]);
    }
  }

  /** With distinct labels and every value a label, row i adds up to the
      number of pairs whose actual value is labels[i], column j to the
      number whose predicted value is labels[j]. */
  lemma {:induction false} MarginsCountLabels(labels: seq<Value>, pairs: seq<(Value, Value)>, i: nat)
    requires NoDuplicates(labels) && i < |labels|
    requires forall k | 0 <= k < |pairs| :: pairs[k].0 in labels && pairs[k].1 in labels
    ensures ActualAt(labels, pairs, i) == Count(Actuals(pairs), labels[i])
    ensures PredictedAt(labels, pairs, i) == Count(Predicted(pairs), labels[i])
  {
    if pairs != [] {
      var init := pairs[..|pairs| - 1];
      MarginsCountLabels(labels, init, i);
      var (p, a) := pairs[|pairs| - 1];
      assert IsLast(labels, i);
      LabelIndexIsLast(labels, a, i);
      LabelIndexIsLast(labels, p, i);
      assert Actuals(pairs)[..|pairs| - 1] == Actuals(init);
      assert Predicted(pairs)[..|pairs| - 1] == Predicted(init);
    }
  }

  function Actuals(pairs: seq<(Value, Value)>): (r: seq<Value>)
    ensures |r| == |pairs| && forall k | 0 <= k < |pairs| :: r[k] == pairs[k].1
  {
    seq(|pairs|, k requires 0 <= k < |pairs| => pairs[k].1)
  }

  function Predicted(pairs: seq<(Value, Value)>): (r: seq<Value>)
    ensures |r| == |pairs| && forall k | 0 <= k < |pairs| :: r[k] == pairs[k].0
  {
    seq(|pairs|, k requires 0 <= k < |pairs| => pairs[k].0)
  }

  // ---------------------------------------------------------------------
  // Accuracy

  /** `sum(1 for p, a in zip(predictions, actual) if p == a)` */
  function Correct(pairs: seq<(Value, Value)>): (n: nat)
    ensures n <= |pairs|
  {
    if pairs == [] then 0
    else Correct(pairs[..|pairs| - 1]) + if pairs[|pairs| - 1].0 == pairs[|pairs| - 1].1 then 1 else 0
  }

  /** Python's `round(y)`: the nearest integer, the even one of two equally
      near. */
  function RoundHalfEven(y: real): (r: int)
    ensures y - 0.5 <= r as real <= y + 0.5
  {
    var f := y.Floor;
    var frac := y - f as real;
    if frac < 0.5 then f
    else if frac > 0.5 then f + 1
    else if f % 2 == 0 then f else f + 1
  }

  lemma RoundOfInteger(k: int)
    ensures RoundHalfEven(k as real) == k
  {
    assert (k as real).Floor == k;
  }

  /** `round(x, 2)` */
  function Round2(x: real): real {
    RoundHalfEven(x * 100.0) as real / 100.0
  }

  /** `round(correct / len(actual) * 100, 2) if actual else 0` */
  function Accuracy(predictions: seq<Value>, actual: seq<Value>): real {
    if actual == [] then 0.0
    else Round2(Correct(Zip(predictions, actual)) as real / |actual| as real * 100.0)
  }

  /** The accuracy is 0 without test rows and lies in [0, 100]; it is
      within 0.005 of the exact percentage of right predictions, 100 when
      every prediction is right and 0 when none is. */
  lemma AccuracyFacts(predictions: seq<Value>, actual: seq<Value>)
    ensures var acc := Accuracy(predictions, actual);
      var c := Correct(Zip(predictions, actual));
      && (actual == [] ==> acc == 0.0)
      && 0.0 <= acc <= 100.0
      && (actual != [] ==>
            var exact := c as real / |actual| as real * 100.0;
            exact - 0.005 <= acc <= exact + 0.005)
      && (c == 0 ==> acc == 0.0)
      && (actual != [] && |predictions| >= |actual| && c == |actual| ==> acc == 100.0)
  {
    if actual != [] {
      var c := Correct(Zip(predictions, actual));
      var n := |actual|;
      UnitQuotient(c as real, n as real);
      var q := c as real / n as real;
      var y := q * 100.0 * 100.0;
      var r := RoundHalfEven(y);
      assert 0.0 <= y <= 10000.0;
      assert 0 <= r <= 10000;
      if c == 0 {
        assert y == 0.0;
      }
      if |predictions| >= |actual| && c == |actual| {
        assert q == 1.0;
        assert y == 10000.0;
        RoundOfInteger(10000);
        assert Round2(q * 100.0) == 100.0;
      }
    }
  }
}
