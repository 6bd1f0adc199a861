/** ID3-style decision-tree induction: `build_decision_tree`, which splits
    on the best attribute under the chosen criterion and recurses into the
    rows of every value of that attribute, with the attribute removed. */
module DecisionTree {
  import opened Data
  import opened Tally
  import opened Impurity

  /** A tree as `build_decision_tree` returns it: a bare target value for a
      leaf, `{attribute: {value: subtree, ...}}` for a node. */
  datatype Tree = Leaf(target: Value) | Node(attr: string, branches: map<Value, Tree>)

  /** `[attr for attr in attributes if attr != best_attribute]` */
  function Without(attrs: seq<string>, a: string): (r: seq<string>)
    ensures forall b :: b in r <==> b in attrs && b != a
    ensures a in attrs ==> |r| < |attrs|
    ensures |r| <= |attrs|
  {
    if attrs == [] then []
    else
      var init := attrs[..|attrs| - 1];
      assert attrs == init + [attrs[|attrs| - 1]];
      Without(init, a) + (if attrs[|attrs| - 1] != a then [attrs[|attrs| - 1]] else [])
  }

  /** The rows of a subset carry every column the data carries. */
  lemma SubsetKeepsColumns(data: Dataset, attr: string, v: Value, attrs: seq<string>, target: string)
    requires HasColumn(data, attr) && HasColumns(data, attrs) && HasColumn(data, target)
    ensures HasColumns(Subset(data, attr, v), attrs) && HasColumn(Subset(data, attr, v), target)
  {
    SubsetColumns(data, attr, v, target);
    forall a | a in attrs ensures HasColumn(Subset(data, attr, v), a) {
      SubsetColumns(data, attr, v, a);
    }
  }

  /** `build_decision_tree` on a non-empty list of rows. */
  function Grow(data: Dataset, attrs: seq<string>, target: string, criterion: string, log2: real -> real): Tree
    requires data != []
    requires HasColumns(data, attrs) && HasColumn(data, target)
    decreases |attrs|, 0
  {
    var targets := Column(data, target);
    if |Distinct(targets)| == 1 then Leaf(targets[0])
    else if attrs == [] then Leaf(MostCommon(targets))
    else
      match BestAttribute(data, attrs, target, criterion, log2)
      case None => Leaf(MostCommon(targets))
      case Some(best) =>
        var rest := Without(attrs, best);
        Node(best, map v | v in Column(data, best) :: Branch(data, best, v, rest, target, criterion, log2))
  }

  /** The subtree for the rows whose `best` attribute holds v: never empty,
      so the source's fallback for an empty subset does not arise. */
  function Branch(data: Dataset, best: string, v: Value, rest: seq<string>, target: string, criterion: string, log2: real -> real): Tree
    requires HasColumn(data, best) && v in Column(data, best)
    requires HasColumns(data, rest) && HasColumn(data, target)
    decreases |rest|, 1
  {
    SubsetNonEmpty(data, best, v);
    SubsetKeepsColumns(data, best, v, rest, target);
    Grow(Subset(data, best, v), rest, target, criterion, log2)
  }

  /** The node built when the targets disagree and an attribute is chosen. */
  lemma GrowNode(data: Dataset, attrs: seq<string>, target: string, criterion: string, log2: real -> real, best: string)
    requires data != []
    requires HasColumns(data, attrs) && HasColumn(data, target)
    requires |Distinct(Column(data, target))| != 1 && attrs != []
    requires BestAttribute(data, attrs, target, criterion, log2) == Some(best)
    ensures best in attrs
    ensures var t := Grow(data, attrs, target, criterion, log2);
      && t.Node? && t.attr == best
      && (forall v :: v in t.branches <==> v in Column(data, best))
      && forall v | v in t.branches :: t.branches[v] == Branch(data, best, v, Without(attrs, best), target, criterion, log2)
  {
  }

  /** Each branch of a built node is the tree built from the rows holding
      its value, without the node's attribute. */
  lemma GrowBranches(data: Dataset, attrs: seq<string>, target: string, criterion: string, log2: real -> real)
    requires data != []
    requires HasColumns(data, attrs) && HasColumn(data, target)
    ensures var t := Grow(data, attrs, target, criterion, log2);
      t.Node? ==>
        && t.attr in attrs
        && forall v | v in t.branches ::
             && v in Column(data, t.attr)
             && Subset(data, t.attr, v) != []
             && HasColumns(Subset(data, t.attr, v), Without(attrs, t.attr))
             && HasColumn(Subset(data, t.attr, v), target)
             && t.branches[v] == Grow(Subset(data, t.attr, v), Without(attrs, t.attr), target, criterion, log2)
  {
    var t := Grow(data, attrs, target, criterion, log2);
    if t.Node? {
      var best := BestAttribute(data, attrs, target, criterion, log2).value;
      GrowNode(data, attrs, target, criterion, log2, best);
      forall v | v in t.branches
        ensures Subset(data, t.attr, v) != []
        ensures HasColumns(Subset(data, t.attr, v), Without(attrs, t.attr)) && HasColumn(Subset(data, t.attr, v), target)
      {
        SubsetNonEmpty(data, best, v);
        SubsetKeepsColumns(data, best, v, Without(attrs, best), target);
      }
    }
  }

  /** `build_decision_tree` on any list of rows. With no rows the majority
      vote indexes an empty list, so the call raises IndexError unless an
      attribute is chosen; then the node has no branches. */
  function BuildTree(data: Dataset, attrs: seq<string>, target: string, criterion: string, log2: real -> real): (r: Outcome<Tree>)
    requires HasColumns(data, attrs) && HasColumn(data, target)
    ensures r.Raise? <==> data == [] && (attrs == [] || !KnownCriterion(criterion))
    ensures r.Raise? ==> r.error == IndexError
    ensures data == [] && r.Ok? ==> r.value == Node(BestAttribute(data, attrs, target, criterion, log2).value, map[])
  {
    if data != [] then Ok(Grow(data, attrs, target, criterion, log2))
    else
      match BestAttribute(data, attrs, target, criterion, log2)
      case None => Raise(IndexError)
      case Some(best) => Ok(Node(best, map[]))
  }

  /** The outcome of `build_decision_tree` in each of its cases. */
  lemma BuildTreeCases(data: Dataset, attrs: seq<string>, target: string, criterion: string, log2: real -> real)
    requires HasColumns(data, attrs) && HasColumn(data, target)
    ensures var targets := Column(data, target);
      var best := BestAttribute(data, attrs, target, criterion, log2);
      var r := BuildTree(data, attrs, target, criterion, log2);
      && (|Distinct(targets)| == 1 ==> r == Ok(Leaf(targets[0])))
      && (|Distinct(targets)| != 1 && best.None? ==> r == if targets == [] then Raise(IndexError) else Ok(Leaf(MostCommon(targets))))
      && (|Distinct(targets)| != 1 && best.Some? ==> r.Ok? && r.value.Node? && r.value.attr == best.value)
  {
  }

  /** A node for the chosen attribute whose branches are the subtrees of
      its values is the tree built. */
  lemma NodeOfBranches(data: Dataset, attrs: seq<string>, target: string, criterion: string, log2: real -> real,
                       attr: string, branches: map<Value, Tree>)
    requires HasColumns(data, attrs) && HasColumn(data, target)
    requires |Distinct(Column(data, target))| != 1 && attrs != []
    requires BestAttribute(data, attrs, target, criterion, log2) == Some(attr)
    requires HasColumn(data, attr) && HasColumns(data, Without(attrs, attr))
    requires forall v :: v in branches <==> v in Column(data, attr)
    requires forall v | v in branches :: branches[v] == Branch(data, attr, v, Without(attrs, attr), target, criterion, log2)
    ensures BuildTree(data, attrs, target, criterion, log2) == Ok(Node(attr, branches))
  {
    if data != [] {
      GrowNode(data, attrs, target, criterion, log2, attr);
      SameBranches(Grow(data, attrs, target, criterion, log2).branches, branches);
    } else {
      NoBranches(data, attr, branches);
    }
  }

  /** Two maps with the same keys and the same value at each key. */
  lemma SameBranches(m: map<Value, Tree>, n: map<Value, Tree>)
    requires forall v :: v in m <==> v in n
    requires forall v | v in m :: m[v] == n[v]
    ensures m == n
  {
  }

  /** With no rows there are no values, hence no branches. */
  lemma NoBranches(data: Dataset, attr: string, branches: map<Value, Tree>)
    requires data == [] && HasColumn(data, attr)
    requires forall v :: v in branches <==> v in Column(data, attr)
    ensures branches == map[]
  {
    assert Column(data, attr) == [];
  }

  /** `build_decision_tree`: the terminal cases, then the node for the best
      attribute with one branch per value of it. */
  method BuildDecisionTree(data: Dataset, attrs: seq<string>, target: string, criterion: string, log2: real -> real)
    returns (r: Outcome<Tree>)
    requires HasColumns(data, attrs) && HasColumn(data, target)
    ensures r == BuildTree(data, attrs, target, criterion, log2)
    decreases |attrs|, 0
  {
    var targets := Column(data, target);
    BuildTreeCases(data, attrs, target, criterion, log2);
    if |Distinct(targets)| == 1 {
      return Ok(Leaf(targets[0]));
    }
    if attrs == [] {
      if targets == [] {
        return Raise(IndexError);
      }
      return Ok(Leaf(MostCommon(targets)));
    }
    var best := FindBestAttribute(data, attrs, target, criterion, log2);
    if best.None? {
      if targets == [] {
        return Raise(IndexError);
      }
      return Ok(Leaf(MostCommon(targets)));
    }
    var attr := best.value;
    var rest := Without(attrs, attr);
    var branches := BuildBranches(data, attr, rest, target, criterion, log2);
    NodeOfBranches(data, attrs, target, criterion, log2, attr, branches);
    return Ok(Node(attr, branches));
  }

  /** The loop of `build_decision_tree` over the values of the chosen
      attribute: one subtree for the rows holding each value. */
  method BuildBranches(data: Dataset, attr: string, rest: seq<string>, target: string, criterion: string, log2: real -> real)
    returns (branches: map<Value, Tree>)
    requires HasColumn(data, attr) && HasColumns(data, rest) && HasColumn(data, target)
    ensures forall v :: v in branches <==> v in Column(data, attr)
    ensures forall v | v in branches :: branches[v] == Branch(data, attr, v, rest, target, criterion, log2)
    decreases |rest|, 1
  {
    var values := Distinct(Column(data, attr));
    branches := map[];
    var k := 0;
    while k < |values|
      invariant 0 <= k <= |values|
      invariant forall v :: v in branches <==> v in values[..k]
      invariant forall v | v in branches :: v in Column(data, attr) && branches[v] == Branch(data, attr, v, rest, target, criterion, log2)
    {
      var v := values[k];
      var subset := Subset(data, attr, v);
      SubsetNonEmpty(data, attr, v);
      SubsetKeepsColumns(data, attr, v, rest, target);
      var child := BuildDecisionTree(subset, rest, target, criterion, log2);
      branches := branches[v := child.value];
      assert values[..k + 1] == values[..k] + [v];
      k := k + 1;
    }
    assert values[..k] == values;
  }

  // Properties

  /** Every leaf of the tree holds one of the given values. */
  predicate LeavesIn(t: Tree, targets: seq<Value>) {
    match t
    case Leaf(x) => x in targets
    case Node(_, branches) => forall v | v in branches :: LeavesIn(branches[v], targets)
  }

  /** Every node tests an attribute from the list, and every subtree only
      tests attributes from the list with its parent's attribute removed:
      no attribute is tested twice on a path. */
  predicate TestsWithin(t: Tree, attrs: seq<string>) {
    match t
    case Leaf(_) => true
    case Node(a, branches) =>
      a in attrs && forall v | v in branches :: TestsWithin(branches[v], Without(attrs, a))
  }

  /** The attribute is tested somewhere in the tree. */
  predicate Tests(t: Tree, a: string) {
    match t
    case Leaf(_) => false
    case Node(b, branches) => b == a || exists v | v in branches :: Tests(branches[v], a)
  }

  /** No path from the root is longer than d nodes. */
  predicate DepthAtMost(t: Tree, d: nat) {
    match t
    case Leaf(_) => true
    case Node(_, branches) => d > 0 && forall v | v in branches :: DepthAtMost(branches[v], d - 1)
  }

  /** The terminal cases: a single target value gives a leaf with it; no
      attributes, or an unrecognised criterion, give a leaf with the most
      common target. Otherwise the root tests the best attribute and has a
      branch for exactly the values that attribute takes in the rows. */
  lemma GrowShape(data: Dataset, attrs: seq<string>, target: string, criterion: string, log2: real -> real)
    requires data != []
    requires HasColumns(data, attrs) && HasColumn(data, target)
    ensures var t := Grow(data, attrs, target, criterion, log2);
      var targets := Column(data, target);
      && (Uniform(targets) ==> t == Leaf(targets[0]))
      && (!Uniform(targets) && (attrs == [] || !KnownCriterion(criterion)) ==> t == Leaf(MostCommon(targets)))
      && (!Uniform(targets) && attrs != [] && KnownCriterion(criterion) ==>
            && t.Node?
            && t.attr == BestAttribute(data, attrs, target, criterion, log2).value
            && t.branches.Keys == set v | v in Column(data, t.attr))
  {
    SingleClass(Column(data, target));
  }

  /** A tree only ever predicts a target value of its training rows. */
  lemma {:induction false} GrowLeaves(data: Dataset, attrs: seq<string>, target: string, criterion: string, log2: real -> real)
    requires data != []
    requires HasColumns(data, attrs) && HasColumn(data, target)
    ensures LeavesIn(Grow(data, attrs, target, criterion, log2), Column(data, target))
    decreases |attrs|
  {
    var t := Grow(data, attrs, target, criterion, log2);
    var targets := Column(data, target);
    GrowBranches(data, attrs, target, criterion, log2);
    if t.Node? {
      var rest := Without(attrs, t.attr);
      forall v | v in t.branches ensures LeavesIn(t.branches[v], targets) {
        var sub := Subset(data, t.attr, v);
        GrowLeaves(sub, rest, target, criterion, log2);
        SubsetTargetsIn(data, t.attr, v, target);
        LeavesInWider(t.branches[v], Column(sub, target), targets);
      }
    } else {
      assert t == Leaf(targets[0]) || t == Leaf(MostCommon(targets));
    }
  }

  /** The targets of a subset are targets of the data. */
  lemma SubsetTargetsIn(data: Dataset, attr: string, v: Value, target: string)
    requires HasColumn(data, attr) && HasColumn(data, target)
    ensures HasColumn(Subset(data, attr, v), target)
    ensures forall x | x in Column(Subset(data, attr, v), target) :: x in Column(data, target)
  {
    SubsetColumns(data, attr, v, target);
    SubsetRows(data, attr, v);
    var sub := Subset(data, attr, v);
    forall x | x in Column(sub, target) ensures x in Column(data, target) {
      var k :| 0 <= k < |sub| && sub[k][target] == x;
      var j :| 0 <= j < |data| && data[j] == sub[k];
      assert Column(data, target)[j] == x;
    }
  }

  lemma {:induction false} LeavesInWider(t: Tree, s: seq<Value>, s': seq<Value>)
    requires LeavesIn(t, s) && forall x | x in s :: x in s'
    ensures LeavesIn(t, s')
  {
    match t
    case Leaf(_) =>
    case Node(_, branches) =>
      forall v | v in branches ensures LeavesIn(branches[v], s') {
        LeavesInWider(branches[v], s, s');
      }
  }

  /** Every attribute a tree tests comes from the attribute list, and none
      is tested again below the node that tests it. */
  lemma {:induction false} GrowTestsWithin(data: Dataset, attrs: seq<string>, target: string, criterion: string, log2: real -> real)
    requires data != []
    requires HasColumns(data, attrs) && HasColumn(data, target)
    ensures TestsWithin(Grow(data, attrs, target, criterion, log2), attrs)
    decreases |attrs|
  {
    var t := Grow(data, attrs, target, criterion, log2);
    GrowBranches(data, attrs, target, criterion, log2);
    if t.Node? {
      var rest := Without(attrs, t.attr);
      forall v | v in t.branches ensures TestsWithin(t.branches[v], rest) {
        GrowTestsWithin(Subset(data, t.attr, v), rest, target, criterion, log2);
      }
    }
  }

  /** A tree that tests only attributes of a list tests nothing else. */
  lemma {:induction false} TestedIn(t: Tree, attrs: seq<string>, a: string)
    requires TestsWithin(t, attrs) && Tests(t, a)
    ensures a in attrs
  {
    match t
    case Node(b, branches) =>
      if b != a {
        var v :| v in branches && Tests(branches[v], a);
        TestedIn(branches[v], Without(attrs, b), a);
      }
  }

  /** The attribute tested at the root of a built tree never reappears in
      its subtrees. */
  lemma NoAttributeTwice(data: Dataset, attrs: seq<string>, target: string, criterion: string, log2: real -> real)
    requires data != []
    requires HasColumns(data, attrs) && HasColumn(data, target)
    ensures var t := Grow(data, attrs, target, criterion, log2);
      t.Node? ==> forall v | v in t.branches :: !Tests(t.branches[v], t.attr)
  {
    var t := Grow(data, attrs, target, criterion, log2);
    GrowTestsWithin(data, attrs, target, criterion, log2);
    if t.Node? {
      forall v | v in t.branches ensures !Tests(t.branches[v], t.attr) {
        if Tests(t.branches[v], t.attr) {
          TestedIn(t.branches[v], Without(attrs, t.attr), t.attr);
        }
      }
    }
  }

  /** A tree testing only attributes of a list, none twice on a path, is no
      deeper than the list is long. */
  lemma {:induction false} DepthOfTestsWithin(t: Tree, attrs: seq<string>)
    requires TestsWithin(t, attrs)
    ensures DepthAtMost(t, |attrs|)
  {
    match t
    case Leaf(_) =>
    case Node(a, branches) =>
      forall v | v in branches ensures DepthAtMost(branches[v], |attrs| - 1) {
        DepthOfTestsWithin(branches[v], Without(attrs, a));
        DepthAtMostWider(branches[v], |Without(attrs, a)|, |attrs| - 1);
      }
  }

  lemma {:induction false} DepthAtMostWider(t: Tree, d: nat, d': nat)
    requires DepthAtMost(t, d) && d <= d'
    ensures DepthAtMost(t, d')
  {
    match t
    case Leaf(_) =>
    case Node(_, branches) =>
      forall v | v in branches ensures DepthAtMost(branches[v], d' - 1) {
        DepthAtMostWider(branches[v], d - 1, d' - 1);
      }
  }

  /** A built tree is no deeper than the number of attributes. */
  lemma TreeDepth(data: Dataset, attrs: seq<string>, target: string, criterion: string, log2: real -> real)
    requires data != []
    requires HasColumns(data, attrs) && HasColumn(data, target)
    ensures DepthAtMost(Grow(data, attrs, target, criterion, log2), |attrs|)
  {
    GrowTestsWithin(data, attrs, target, criterion, log2);
    DepthOfTestsWithin(Grow(data, attrs, target, criterion, log2), attrs);
  }
}
