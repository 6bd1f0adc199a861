/** k-nearest-neighbour classification of classification_logic.py:
    `euclidean_distance` over the attributes both rows hold as numbers, and
    `predict_knn`, which ranks the training rows by distance to the test
    row, keeps the first k and takes a majority vote of their targets. */
module Knn {
  import opened Data
  import opened Arith
  import opened Tally
  import opened Ordering

  /** `row.get(attr, 0)` when it is a number: a missing attribute reads as
      the integer 0, a non-numeric cell is None. */
  function NumberOrZero(row: Row, attr: string): Option<real> {
    if attr !in row then Some(0.0)
    else if row[attr].Num? then Some(row[attr].x)
    else None
  }

  /** Both rows give a number for attr. */
  predicate BothNumeric(r1: Row, r2: Row, attr: string) {
    NumberOrZero(r1, attr).Some? && NumberOrZero(r2, attr).Some?
  }

  /** What one attribute adds to the squared distance: the squared
      difference of two numbers, nothing otherwise. */
  function DistanceTerm(r1: Row, r2: Row, attr: string): real {
    if BothNumeric(r1, r2, attr) then Square(NumberOrZero(r1, attr).value - NumberOrZero(r2, attr).value)
    else 0.0
  }

  /** The `distance` accumulated over the attributes, before the root. */
  function SquaredDistance(r1: Row, r2: Row, attrs: seq<string>): real {
    if attrs == [] then 0.0
    else SquaredDistance(r1, r2, attrs[..|attrs| - 1]) + DistanceTerm(r1, r2, attrs[|attrs| - 1])
  }

  /** `euclidean_distance(row1, row2, attributes)` */
  function Distance(r1: Row, r2: Row, attrs: seq<string>, sqrt: real -> real): real {
    sqrt(SquaredDistance(r1, r2, attrs))
  }

  /** `euclidean_distance`: the loop over the attributes, then the root. */
  method EuclideanDistance(r1: Row, r2: Row, attrs: seq<string>, sqrt: real -> real) returns (d: real)
    ensures d == Distance(r1, r2, attrs, sqrt)
  {
    var distance := 0.0;
    var k := 0;
    while k < |attrs|
      invariant 0 <= k <= |attrs|
      invariant distance == SquaredDistance(r1, r2, attrs[..k])
    {
      var attr := attrs[k];
      var v1, v2 := NumberOrZero(r1, attr), NumberOrZero(r2, attr);
      if v1.Some? && v2.Some? {
        distance := distance + Square(v1.value - v2.value);
      }
      assert attrs[..k + 1][..k] == attrs[..k];
      k := k + 1;
    }
    assert attrs[..k] == attrs;
    d := sqrt(distance);
  }

  // ---------------------------------------------------------------------
  // The distance

  /** The attributes both rows hold as numbers, in order. */
  function NumericAttrs(r1: Row, r2: Row, attrs: seq<string>): (r: seq<string>)
    ensures forall a :: a in r <==> a in attrs && BothNumeric(r1, r2, a)
  {
    if attrs == [] then []
    else
      var init := attrs[..|attrs| - 1];
      var a := attrs[|attrs| - 1];
      assert attrs == init + [a];
      NumericAttrs(r1, r2, init) + (if BothNumeric(r1, r2, a) then [a] else [])
  }

  /** The squared distance is a sum of squares, so never negative. */
  lemma {:induction false} SquaredDistanceNonNegative(r1: Row, r2: Row, attrs: seq<string>)
    ensures SquaredDistance(r1, r2, attrs) >= 0.0
  {
    if attrs != [] {
      var a := attrs[|attrs| - 1];
      SquaredDistanceNonNegative(r1, r2, attrs[..|attrs| - 1]);
      if BothNumeric(r1, r2, a) {
        SquareNonNegative(NumberOrZero(r1, a).value - NumberOrZero(r2, a).value);
      }
    }
  }

  /** The distance does not depend on the order of the two rows. */
  lemma {:induction false} SquaredDistanceSymmetric(r1: Row, r2: Row, attrs: seq<string>)
    ensures SquaredDistance(r1, r2, attrs) == SquaredDistance(r2, r1, attrs)
  {
    if attrs != [] {
      var a := attrs[|attrs| - 1];
      SquaredDistanceSymmetric(r1, r2, attrs[..|attrs| - 1]);
      if BothNumeric(r1, r2, a) {
        SquareOfNegation(NumberOrZero(r1, a).value - NumberOrZero(r2, a).value);
      }
    }
  }

  /** A row is at distance 0 from itself. */
  lemma {:induction false} SquaredDistanceSelf(r: Row, attrs: seq<string>)
    ensures SquaredDistance(r, r, attrs) == 0.0
  {
    if attrs != [] {
      SquaredDistanceSelf(r, attrs[..|attrs| - 1]);
    }
  }

  /** Attributes that are not numeric in both rows are ignored: the
      distance over all attributes is the distance over the numeric pairs
      alone. */
  lemma {:induction false} SquaredDistanceIgnoresNonNumeric(r1: Row, r2: Row, attrs: seq<string>)
    ensures SquaredDistance(r1, r2, attrs) == SquaredDistance(r1, r2, NumericAttrs(r1, r2, attrs))
  {
    if attrs != [] {
      var init := attrs[..|attrs| - 1];
      var a := attrs[|attrs| - 1];
      SquaredDistanceIgnoresNonNumeric(r1, r2, init);
      if BothNumeric(r1, r2, a) {
        var n := NumericAttrs(r1, r2, init) + [a];
        assert NumericAttrs(r1, r2, attrs) == n;
        assert n[..|n| - 1] == NumericAttrs(r1, r2, init);
        assert SquaredDistance(r1, r2, n) == SquaredDistance(r1, r2, NumericAttrs(r1, r2, init)) + DistanceTerm(r1, r2, a);
      } else {
        assert NumericAttrs(r1, r2, attrs) == NumericAttrs(r1, r2, init);
      }
    }
  }

  /** A row whose attributes all agree in number with another's is at
      distance 0 from it; one attribute where they differ makes the
      distance positive. */
  lemma {:induction false} SquaredDistanceZero(r1: Row, r2: Row, attrs: seq<string>)
    ensures SquaredDistance(r1, r2, attrs) == 0.0 <==>
      forall a | a in attrs && BothNumeric(r1, r2, a) :: NumberOrZero(r1, a) == NumberOrZero(r2, a)
  {
    if attrs != [] {
      var init := attrs[..|attrs| - 1];
      var a := attrs[|attrs| - 1];
      SquaredDistanceZero(r1, r2, init);
      SquaredDistanceNonNegative(r1, r2, init);
      assert forall b :: b in attrs <==> b in init || b == a;
      if BothNumeric(r1, r2, a) {
        var d := NumberOrZero(r1, a).value - NumberOrZero(r2, a).value;
        SquareNonNegative(d);
      }
    }
  }

  // ---------------------------------------------------------------------
  // predict_knn

  /** A training row with its distance to the test row: `(train_row, d)`. */
  datatype Scored = Scored(row: Row, distance: real)

  /** `key=lambda x: x[1]` */
  predicate Closer(a: Scored, b: Scored) {
    a.distance <= b.distance
  }

  lemma CloserIsTotalPreorder()
    ensures TotalPreorder(Closer)
  {
  }

  /** `[(train_row, euclidean_distance(train_row, test_instance, attributes)) ...]` */
  function ScoredRows(train: Dataset, test: Row, attrs: seq<string>, sqrt: real -> real): (r: seq<Scored>)
    ensures |r| == |train|
    ensures forall i | 0 <= i < |train| :: r[i] == Scored(train[i], Distance(train[i], test, attrs, sqrt))
  {
    seq(|train|, i requires 0 <= i < |train| => Scored(train[i], Distance(train[i], test, attrs, sqrt)))
  }

  /** `sorted(..., key=lambda x: x[1])` */
  function Ranked(train: Dataset, test: Row, attrs: seq<string>, sqrt: real -> real): (r: seq<Scored>)
    ensures |r| == |train|
    ensures forall c | HasColumn(train, c) :: RowsHaveTarget(r, c)
  {
    CloserIsTotalPreorder();
    var s := ScoredRows(train, test, attrs, sqrt);
    var r := SortBy(s, Closer);
    assert forall c | HasColumn(train, c) :: RowsHaveTarget(r, c) by {
      forall c | HasColumn(train, c) ensures RowsHaveTarget(r, c) {
        SameRows(s, r, c);
      }
    }
    r
  }

  /** A reordering keeps every row's columns. */
  lemma SameRows(s: seq<Scored>, t: seq<Scored>, c: string)
    requires multiset(s) == multiset(t) && RowsHaveTarget(s, c)
    ensures RowsHaveTarget(t, c)
  {
    forall i | 0 <= i < |t| ensures c in t[i].row {
      assert t[i] in multiset(s);
      var j :| 0 <= j < |s| && s[j] == t[i];
    }
  }

  /** What `predict_knn` returns: the prediction and, for each neighbour,
      its target and distance. */
  datatype KnnPrediction = KnnPrediction(prediction: Value, neighbours: seq<(Value, real)>)

  predicate RowsHaveTarget(rows: seq<Scored>, target: string) {
    forall i | 0 <= i < |rows| :: target in rows[i].row
  }

  function TargetsOf(rows: seq<Scored>, target: string): (r: seq<Value>)
    requires RowsHaveTarget(rows, target)
    ensures |r| == |rows|
  {
    seq(|rows|, i requires 0 <= i < |rows| => rows[i].row[target])
  }

  /** `predict_knn`: the first k ranked rows (Python slice semantics, so a
      negative k drops rows from the end), then `Counter(...).most_common(1)`,
      which raises IndexError when there is no neighbour. */
  function PredictKnn(train: Dataset, test: Row, k: int, attrs: seq<string>, target: string, sqrt: real -> real): Outcome<KnnPrediction>
    requires HasColumn(train, target)
  {
    var ranked := Ranked(train, test, attrs, sqrt);
    var neighbours := ranked[..SliceEnd(|train|, k)];
    if neighbours == [] then Raise(IndexError)
    else
      Ok(KnnPrediction(MostCommon(TargetsOf(neighbours, target)),
        seq(|neighbours|, i requires 0 <= i < |neighbours| => (neighbours[i].row[target], neighbours[i].distance))))
  }

  /** The ranking is a reordering of the scored training rows, nearest first. */
  lemma RankedIsSorted(train: Dataset, test: Row, attrs: seq<string>, sqrt: real -> real)
    ensures var r := Ranked(train, test, attrs, sqrt);
      && multiset(r) == multiset(ScoredRows(train, test, attrs, sqrt))
      && forall i, j | 0 <= i < j < |r| :: r[i].distance <= r[j].distance
  {
    CloserIsTotalPreorder();
  }

  /** Every ranked entry is a training row with its own distance. */
  lemma RankedFromTrain(train: Dataset, test: Row, attrs: seq<string>, sqrt: real -> real, i: nat)
    requires i < |train|
    ensures var r := Ranked(train, test, attrs, sqrt)[i];
      exists j | 0 <= j < |train| :: r == Scored(train[j], Distance(train[j], test, attrs, sqrt))
  {
    RankedIsSorted(train, test, attrs, sqrt);
    var r := Ranked(train, test, attrs, sqrt);
    var s := ScoredRows(train, test, attrs, sqrt);
    assert r[i] in multiset(r);
    assert r[i] in s;
  }

  /** `predict_knn` returns min(k, n) neighbours for k >= 0 (n + k for a
      negative k), nearest first, every one of them no farther than any
      training row left out; it raises IndexError exactly when there is no
      neighbour; and the prediction is a target occurring most often among
      the neighbours, the first such in order of first occurrence. */
  lemma KnnNeighbours(train: Dataset, test: Row, k: int, attrs: seq<string>, target: string, sqrt: real -> real)
    requires HasColumn(train, target)
    ensures var p := PredictKnn(train, test, k, attrs, target, sqrt);
      var m := SliceEnd(|train|, k);
      var r := Ranked(train, test, attrs, sqrt);
      && (p.Raise? <==> m == 0)
      && (p.Raise? ==> p.error == IndexError)
      && (p.Ok? ==>
            && |p.value.neighbours| == m
            && (forall i | 0 <= i < m :: p.value.neighbours[i] == (r[i].row[target], r[i].distance))
            && (forall i, j | 0 <= i < j < m :: p.value.neighbours[i].1 <= p.value.neighbours[j].1)
            && (forall i, j | 0 <= i < m <= j < |train| :: r[i].distance <= r[j].distance)
            && p.value.prediction in TargetsOf(r[..m], target)
            && forall v | v in TargetsOf(r[..m], target) :: Count(TargetsOf(r[..m], target), v) <= Count(TargetsOf(r[..m], target), p.value.prediction))
  {
    RankedIsSorted(train, test, attrs, sqrt);
  }
}
