/** The 1R classifier of classification_logic.py: `train_1r`, which builds
    for every attribute one rule per value (the most frequent target of the
    rows holding it) and keeps the attribute whose rules misclassify the
    fewest rows, and `predict_1r`, which applies the rules to a test row. */
module OneRule {
  import opened Data
  import Arith
  import opened Tally

  /** `value -> label`: one rule of an attribute. */
  datatype Rule = Rule(key: Value, prediction: Value)

  /** The `error_rate` of a model: a fraction of the rows, or `inf` when no
      attribute was tried. */
  datatype ErrorRate = Rate(r: real) | Infinite

  /** `{'attribute': ..., 'rules': ..., 'error_rate': ...}`; the rules are
      listed in the order of the dict. */
  datatype OneRModel = OneRModel(attribute: Option<string>, rules: seq<Rule>, errorRate: ErrorRate)

  /** The targets of the rows whose attr holds v, in row order: what
      `counts[v]` tallies. */
  function ValueTargets(rows: Dataset, attr: string, target: string, v: Value): (ts: seq<Value>)
    requires HasColumn(rows, attr) && HasColumn(rows, target)
    ensures |ts| <= |rows|
  {
    if rows == [] then []
    else
      var last := rows[|rows| - 1];
      ValueTargets(rows[..|rows| - 1], attr, target, v) + (if last[attr] == v then [last[target]] else [])
  }

  /** A value of the column has at least one target. */
  lemma {:induction false} ValueTargetsNonEmpty(rows: Dataset, attr: string, target: string, v: Value)
    requires HasColumn(rows, attr) && HasColumn(rows, target)
    requires v in Column(rows, attr)
    ensures ValueTargets(rows, attr, target, v) != []
  {
    var init := rows[..|rows| - 1];
    if rows[|rows| - 1][attr] != v {
      var i :| 0 <= i < |rows| && rows[i][attr] == v;
      assert init[i][attr] == v;
      assert v in Column(init, attr);
      ValueTargetsNonEmpty(init, attr, target, v);
    }
  }

  /** The rule label of v: `max(target_counts, key=target_counts.get)`, the
      first most frequent target of the rows holding v. */
  function RuleLabel(train: Dataset, attr: string, target: string, v: Value): Value
    requires HasColumn(train, attr) && HasColumn(train, target)
    requires v in Column(train, attr)
  {
    ValueTargetsNonEmpty(train, attr, target, v);
    MostCommon(ValueTargets(train, attr, target, v))
  }

  /** The rules `train_1r` builds for one attribute: one per distinct
      value, in order of first occurrence. */
  function RulesFor(train: Dataset, attr: string, target: string): (rules: seq<Rule>)
    requires HasColumn(train, attr) && HasColumn(train, target)
    ensures |rules| == |Distinct(Column(train, attr))|
  {
    var vals := Distinct(Column(train, attr));
    seq(|vals|, i requires 0 <= i < |vals| => Rule(vals[i], RuleLabel(train, attr, target, vals[i])))
  }

  /** `rules.get(v, default)` */
  function Lookup(rules: seq<Rule>, v: Value, default: Value): (r: Value)
    ensures (forall i | 0 <= i < |rules| :: rules[i].key != v) ==> r == default
  {
    if rules == [] then default
    else if rules[0].key == v then rules[0].prediction
    else Lookup(rules[1..], v, default)
  }

  /** `sum(1 for row in train_data if rules.get(row[attr]) != row[target_attr])` */
  function Errors(rows: Dataset, attr: string, target: string, rules: seq<Rule>): (n: nat)
    requires HasColumn(rows, attr) && HasColumn(rows, target)
    ensures n <= |rows|
  {
    if rows == [] then 0
    else
      var last := rows[|rows| - 1];
      Errors(rows[..|rows| - 1], attr, target, rules) + (if Lookup(rules, last[attr], Null) != last[target] then 1 else 0)
  }

  /** The error of an attribute's own rules. */
  function ErrorCount(train: Dataset, attr: string, target: string): nat
    requires HasColumn(train, attr) && HasColumn(train, target)
  {
    Errors(train, attr, target, RulesFor(train, attr, target))
  }

  /** The errors as scores, higher for fewer errors. */
  function ErrorScores(train: Dataset, attrs: seq<string>, target: string): (s: seq<real>)
    requires HasColumns(train, attrs) && HasColumn(train, target)
    ensures |s| == |attrs|
    ensures forall i | 0 <= i < |attrs| :: s[i] == -(ErrorCount(train, attrs[i], target) as real)
  {
    seq(|attrs|, i requires 0 <= i < |attrs| => -(ErrorCount(train, attrs[i], target) as real))
  }

  /** `train_1r`: ZeroDivisionError for no rows (the error rate divides by
      their number); no attribute and an infinite error rate for no
      attributes; otherwise the first attribute of fewest errors. */
  function OneR(train: Dataset, attrs: seq<string>, target: string): (r: Outcome<OneRModel>)
    requires HasColumns(train, attrs) && HasColumn(train, target)
  {
    if train == [] then Raise(ZeroDivisionError)
    else if attrs == [] then Ok(OneRModel(None, [], Infinite))
    else
      var best := attrs[FirstMax(ErrorScores(train, attrs, target))];
      Ok(OneRModel(Some(best), RulesFor(train, best, target), Rate(ErrorCount(train, best, target) as real / |train| as real)))
  }

  // ---------------------------------------------------------------------
  // What train_1r promises

  /** ZeroDivisionError exactly for no rows; no attribute and an infinite
      error rate for no attributes; otherwise the first attribute of fewest
      errors, its own rules, and its error rate, a fraction in [0, 1]. */
  lemma OneRFacts(train: Dataset, attrs: seq<string>, target: string)
    requires HasColumns(train, attrs) && HasColumn(train, target)
    ensures OneR(train, attrs, target).Raise? <==> train == []
    ensures train == [] ==> OneR(train, attrs, target) == Raise(ZeroDivisionError)
    ensures train != [] && attrs == [] ==> OneR(train, attrs, target) == Ok(OneRModel(None, [], Infinite))
    ensures train != [] && attrs != [] ==>
      exists i | 0 <= i < |attrs| ::
        && OneR(train, attrs, target) == Ok(OneRModel(Some(attrs[i]), RulesFor(train, attrs[i], target),
                                                       Rate(ErrorCount(train, attrs[i], target) as real / |train| as real)))
        && (forall j | 0 <= j < |attrs| :: ErrorCount(train, attrs[i], target) <= ErrorCount(train, attrs[j], target))
        && (forall j | 0 <= j < i :: ErrorCount(train, attrs[i], target) < ErrorCount(train, attrs[j], target))
    ensures train != [] && attrs != [] ==>
      var rate := OneR(train, attrs, target).value.errorRate;
      rate.Rate? && 0.0 <= rate.r <= 1.0
  {
    if train != [] && attrs != [] {
      var scores := ErrorScores(train, attrs, target);
      var i := FirstMax(scores);
      var e := ErrorCount(train, attrs[i], target);
      forall j | 0 <= j < |attrs| ensures e <= ErrorCount(train, attrs[j], target) {
        assert scores[j] <= scores[i];
      }
      forall j | 0 <= j < i ensures e < ErrorCount(train, attrs[j], target) {
        assert scores[j] < scores[i];
      }
      Arith.UnitQuotient(e as real, |train| as real);
    }
  }

  /** The rules of an attribute: one per distinct value of its column, in
      order of first occurrence, each predicting a target of highest count
      among the rows holding that value (the first such in row order). */
  lemma RulesForFacts(train: Dataset, attr: string, target: string)
    requires HasColumn(train, attr) && HasColumn(train, target)
    ensures var rules := RulesFor(train, attr, target);
      && (forall i | 0 <= i < |rules| :: rules[i].key == Distinct(Column(train, attr))[i])
      && (forall v :: v in Column(train, attr) <==> exists i | 0 <= i < |rules| :: rules[i].key == v)
      && (forall i, j | 0 <= i < j < |rules| :: rules[i].key != rules[j].key)
      && (forall i | 0 <= i < |rules| ::
            && rules[i].prediction in ValueTargets(train, attr, target, rules[i].key)
            && forall t | t in ValueTargets(train, attr, target, rules[i].key) ::
                 Count(ValueTargets(train, attr, target, rules[i].key), t)
                 <= Count(ValueTargets(train, attr, target, rules[i].key), rules[i].prediction))
  {
    var rules := RulesFor(train, attr, target);
    var vals := Distinct(Column(train, attr));
    forall v | v in Column(train, attr) ensures exists i | 0 <= i < |rules| :: rules[i].key == v {
      var i :| 0 <= i < |vals| && vals[i] == v;
      assert rules[i].key == v;
    }
    forall i | 0 <= i < |rules|
      ensures rules[i].prediction in ValueTargets(train, attr, target, rules[i].key)
    {
      assert vals[i] in vals;
      ValueTargetsNonEmpty(train, attr, target, vals[i]);
    }
  }

  /** Every row of the training data is looked up under its own value's
      rule: the error count is the number of rows whose target differs
      from the rule of their value. */
  lemma LookupRule(train: Dataset, attr: string, target: string, v: Value, default: Value)
    requires HasColumn(train, attr) && HasColumn(train, target)
    requires v in Column(train, attr)
    ensures Lookup(RulesFor(train, attr, target), v, default) == RuleLabel(train, attr, target, v)
  {
    var rules := RulesFor(train, attr, target);
    var vals := Distinct(Column(train, attr));
    var i :| 0 <= i < |vals| && vals[i] == v;
    LookupFirst(rules, i, v, default);
  }

  /** `rules.get(v)` finds the rule of a key when no earlier rule has it. */
  lemma {:induction false} LookupFirst(rules: seq<Rule>, i: nat, v: Value, default: Value)
    requires i < |rules| && rules[i].key == v
    requires forall j | 0 <= j < i :: rules[j].key != v
    ensures Lookup(rules, v, default) == rules[i].prediction
  {
    if i > 0 {
      LookupFirst(rules[1..], i - 1, v, default);
    }
  }

  // ---------------------------------------------------------------------
  // predict_1r

  const NoAttribute := Str("Unknown (Model has no attribute)")
  const MissingAttribute := Str("Unknown (Attribute missing in test instance)")
  const NoRule := Str("Unknown (No rule for this value)")

  /** The label of the first rule whose key is an interval holding x. */
  function IntervalRule(rules: seq<Rule>, x: real): (r: Option<Value>)
    ensures r.None? <==> forall i | 0 <= i < |rules| :: !(rules[i].key.Interval? && rules[i].key.lo <= x <= rules[i].key.hi)
    ensures r.Some? ==> exists i | 0 <= i < |rules| ::
      && rules[i].key.Interval? && rules[i].key.lo <= x <= rules[i].key.hi && r.value == rules[i].prediction
      && forall j | 0 <= j < i :: !(rules[j].key.Interval? && rules[j].key.lo <= x <= rules[j].key.hi)
  {
    if rules == [] then None
    else if rules[0].key.Interval? && rules[0].key.lo <= x <= rules[0].key.hi then Some(rules[0].prediction)
    else
      var r := IntervalRule(rules[1..], x);
      assert forall i | 1 <= i < |rules| :: rules[1..][i - 1] == rules[i];
      r
  }

  /** `predict_1r`: the sentinel texts when the model has no attribute or
      the test row lacks it; for a number, the first interval rule holding
      it; otherwise the rule of the exact value, or the no-rule sentinel. */
  function Predict1R(model: OneRModel, test: Row): Value
  {
    if model.attribute.None? || model.attribute.value == "" then NoAttribute
    else if Get(test, model.attribute.value, Null) == Null then MissingAttribute
    else
      var v := test[model.attribute.value];
      if v.Num? && IntervalRule(model.rules, v.x).Some? then IntervalRule(model.rules, v.x).value
      else Lookup(model.rules, v, NoRule)
  }

  /** The outcomes of `predict_1r`. */
  lemma Predict1RFacts(model: OneRModel, test: Row)
    ensures model.attribute.None? || model.attribute.value == "" ==> Predict1R(model, test) == NoAttribute
    ensures model.attribute.Some? && model.attribute.value != "" ==>
      var a := model.attribute.value;
      && (a !in test || test[a] == Null ==> Predict1R(model, test) == MissingAttribute)
      && (a in test && test[a].Num? && (exists i | 0 <= i < |model.rules| ::
            model.rules[i].key.Interval? && model.rules[i].key.lo <= test[a].x <= model.rules[i].key.hi) ==>
            exists i | 0 <= i < |model.rules| :: model.rules[i].key.Interval? && Predict1R(model, test) == model.rules[i].prediction)
      && (a in test && test[a] != Null && !test[a].Num? ==> Predict1R(model, test) == Lookup(model.rules, test[a], NoRule))
  {
  }

  /** On a training row whose value is not a number held by an interval
      rule, the model predicts the rule of that value: the errors counted
      in training are the training rows it mispredicts. */
  lemma PredictTrainingRow(train: Dataset, attrs: seq<string>, target: string, row: Row)
    requires HasColumns(train, attrs) && HasColumn(train, target)
    requires attrs != [] && row in train
    ensures var m := OneR(train, attrs, target).value;
      && m.attribute.Some?
      && var a := m.attribute.value;
      && a in row
      && (a != "" && row[a] != Null && (forall u | u in Column(train, a) :: !u.Interval?) ==>
            Predict1R(m, row) == RuleLabel(train, a, target, row[a]) == Lookup(m.rules, row[a], Null))
  {
    var a := attrs[FirstMax(ErrorScores(train, attrs, target))];
    var m := OneR(train, attrs, target).value;
    assert m.attribute == Some(a) && m.rules == RulesFor(train, a, target);
    var n :| 0 <= n < |train| && train[n] == row;
    assert row[a] == Column(train, a)[n];
    if a != "" && row[a] != Null && (forall u | u in Column(train, a) :: !u.Interval?) {
      PredictWithRules(train, a, target, m, row);
    }
  }

  /** The prediction of a model holding an attribute's own rules, on a
      value of that attribute's column. */
  lemma PredictWithRules(train: Dataset, a: string, target: string, m: OneRModel, row: Row)
    requires HasColumn(train, a) && HasColumn(train, target)
    requires m.attribute == Some(a) && a != "" && m.rules == RulesFor(train, a, target)
    requires a in row && row[a] != Null && row[a] in Column(train, a)
    requires forall u | u in Column(train, a) :: !u.Interval?
    ensures Predict1R(m, row) == RuleLabel(train, a, target, row[a]) == Lookup(m.rules, row[a], Null)
  {
    var rules := m.rules;
    LookupRule(train, a, target, row[a], Null);
    LookupRule(train, a, target, row[a], NoRule);
    if row[a].Num? {
      forall j | 0 <= j < |rules| ensures !rules[j].key.Interval? {
        assert rules[j].key in Distinct(Column(train, a));
      }
    }
  }

  /** `predict_1r` as written parses a key "[lo-hi]" by splitting it at
      '-'; a negative bound adds a second '-', the split yields more than
      two parts, and the rule is skipped. Only keys with both bounds
      non-negative take part in the range check. */
  function IntervalRuleAsWritten(rules: seq<Rule>, x: real): Option<Value>
  {
    if rules == [] then None
    else
      var key := rules[0].key;
      if key.Interval? && key.lo >= 0.0 && key.hi >= 0.0 && key.lo <= x <= key.hi then Some(rules[0].prediction)
      else IntervalRuleAsWritten(rules[1..], x)
  }

  /** `predict_1r` as written. */
  function Predict1RAsWritten(model: OneRModel, test: Row): Value
  {
    if model.attribute.None? || model.attribute.value == "" then NoAttribute
    else if Get(test, model.attribute.value, Null) == Null then MissingAttribute
    else
      var v := test[model.attribute.value];
      if v.Num? && IntervalRuleAsWritten(model.rules, v.x).Some? then IntervalRuleAsWritten(model.rules, v.x).value
      else Lookup(model.rules, v, NoRule)
  }

  /** A range rule with a negative lower bound never applies as written:
      0.0 lies in [-1.0, 1.0], yet the prediction is the no-rule text. */
  lemma NegativeIntervalSkipped()
    ensures var model := OneRModel(Some("t"), [Rule(Interval(-1.0, 1.0), Str("yes"))], Rate(0.0));
      var test := map["t" := Num(0.0)];
      && Predict1RAsWritten(model, test) == NoRule
      && Predict1R(model, test) == Str("yes")
  {
    var rules := [Rule(Interval(-1.0, 1.0), Str("yes"))];
    assert rules[1..] == [];
  }

  /** Where no interval key has a negative bound, the code as written and
      the corrected prediction agree. */
  lemma {:induction false} AsWrittenAgrees(rules: seq<Rule>, x: real)
    requires forall i | 0 <= i < |rules| && rules[i].key.Interval? :: rules[i].key.lo >= 0.0 && rules[i].key.hi >= 0.0
    ensures IntervalRuleAsWritten(rules, x) == IntervalRule(rules, x)
  {
    if rules != [] {
      assert forall i | 1 <= i < |rules| :: rules[1..][i - 1] == rules[i];
      AsWrittenAgrees(rules[1..], x);
    }
  }

  // ---------------------------------------------------------------------
  // The training loops

  /** `train_1r`: the loop over the attributes, keeping the rules of the
      first attribute whose error is below every earlier one. */
  method Train1R(train: Dataset, attrs: seq<string>, target: string) returns (r: Outcome<OneRModel>)
    requires HasColumns(train, attrs) && HasColumn(train, target)
    ensures r == OneR(train, attrs, target)
  {
    var bestAttribute: Option<string> := None;
    var minError: Option<nat> := None;   // None stands for float('inf')
    var bestRules: seq<Rule> := [];
    ghost var scores := ErrorScores(train, attrs, target);
    ghost var bestIndex := 0;
    var k := 0;
    while k < |attrs|
      invariant 0 <= k <= |attrs|
      invariant k == 0 ==> bestAttribute.None? && minError.None? && bestRules == []
      invariant k > 0 ==> BestSoFar(train, attrs, target, k, bestIndex, bestAttribute, minError, bestRules)
    {
      var attr := attrs[k];
      var rules := AttributeRules(train, attr, target);
      var error := CountErrors(train, attr, target, rules);
      BestStep(train, attrs, target, k, bestIndex, minError);
      if minError.None? || error < minError.value {
        minError, bestAttribute, bestRules := Some(error), Some(attr), rules;
        bestIndex := k;
      }
      k := k + 1;
    }
    assert scores[..k] == scores;
    if train == [] {
      return Raise(ZeroDivisionError);
    }
    if minError.None? {
      return Ok(OneRModel(None, [], Infinite));
    }
    r := Ok(OneRModel(bestAttribute, bestRules, Rate(minError.value as real / |train| as real)));
  }

  /** The state of the loop of `train_1r` after k attributes: the first of
      them with fewest errors, its error count and its rules. */
  ghost predicate BestSoFar(train: Dataset, attrs: seq<string>, target: string, k: nat,
                            bestIndex: nat, bestAttribute: Option<string>, minError: Option<nat>, bestRules: seq<Rule>)
    requires HasColumns(train, attrs) && HasColumn(train, target) && 0 < k <= |attrs|
  {
    && bestIndex == FirstMax(ErrorScores(train, attrs, target)[..k])
    && bestAttribute == Some(attrs[bestIndex])
    && minError == Some(ErrorCount(train, attrs[bestIndex], target))
    && bestRules == RulesFor(train, attrs[bestIndex], target)
  }

  /** One more attribute: it becomes the best when its error is below the
      best so far, or when it is the first. */
  lemma BestStep(train: Dataset, attrs: seq<string>, target: string, k: nat, bestIndex: nat, minError: Option<nat>)
    requires HasColumns(train, attrs) && HasColumn(train, target) && k < |attrs|
    requires k == 0 ==> minError.None?
    requires k > 0 ==> (bestIndex == FirstMax(ErrorScores(train, attrs, target)[..k])
                        && minError == Some(ErrorCount(train, attrs[bestIndex], target)))
    ensures var scores := ErrorScores(train, attrs, target);
      var error := ErrorCount(train, attrs[k], target);
      FirstMax(scores[..k + 1]) == if minError.None? || error < minError.value then k else bestIndex
  {
    var scores := ErrorScores(train, attrs, target);
    FirstMaxStep(scores, k);
  }

  /** The first maximum of one more score: the new one if it beats the old
      maximum, else the old one. */
  lemma FirstMaxStep(s: seq<real>, k: nat)
    requires k < |s|
    ensures k == 0 ==> FirstMax(s[..k + 1]) == 0
    ensures k > 0 ==> FirstMax(s[..k + 1]) == if s[k] > s[FirstMax(s[..k])] then k else FirstMax(s[..k])
  {
    assert s[..k + 1][..k] == s[..k];
  }

  /** The error count loop. */
  method CountErrors(train: Dataset, attr: string, target: string, rules: seq<Rule>) returns (error: nat)
    requires HasColumn(train, attr) && HasColumn(train, target)
    ensures error == Errors(train, attr, target, rules)
  {
    error := 0;
    var k := 0;
    while k < |train|
      invariant 0 <= k <= |train|
      invariant error == Errors(train[..k], attr, target, rules)
    {
      assert train[..k + 1][..k] == train[..k];
      if Lookup(rules, train[k][attr], Null) != train[k][target] {
        error := error + 1;
      }
      k := k + 1;
    }
    assert train[..k] == train;
  }

  /** The counts of the targets, in order of first occurrence, as scores. */
  function KeyScores(order: seq<Value>, inner: map<Value, nat>): (s: seq<real>)
    requires forall t | t in order :: t in inner
    ensures |s| == |order|
  {
    seq(|order|, i requires 0 <= i < |order| => inner[order[i]] as real)
  }

  /** The rules of one attribute: the counts, then for every value the
      target of highest count. */
  method AttributeRules(train: Dataset, attr: string, target: string) returns (rules: seq<Rule>)
    requires HasColumn(train, attr) && HasColumn(train, target)
    ensures rules == RulesFor(train, attr, target)
  {
    var values, seen, counts := TallyTargets(train, attr, target);
    ghost var all := RulesFor(train, attr, target);
    rules := [];
    var k := 0;
    while k < |values|
      invariant 0 <= k <= |values| == |all|
      invariant rules == all[..k]
    {
      var v := values[k];
      RuleAt(train, attr, target, values, seen, counts, k);
      rules := rules + [Rule(v, seen[v][FirstMax(KeyScores(seen[v], counts[v]))])];
      assert all[..k + 1] == all[..k] + [all[k]];
      k := k + 1;
    }
    assert all[..k] == all;
  }

  /** The rule the loop builds for the k-th value is the k-th of RulesFor. */
  lemma RuleAt(train: Dataset, attr: string, target: string,
               values: seq<Value>, seen: map<Value, seq<Value>>, counts: map<Value, map<Value, nat>>, k: nat)
    requires HasColumn(train, attr) && HasColumn(train, target)
    requires Tallied(train, attr, target, values, seen, counts) && k < |values|
    ensures |values| == |RulesFor(train, attr, target)|
    ensures values[k] in seen && values[k] in counts
    ensures forall t | t in seen[values[k]] :: t in counts[values[k]]
    ensures seen[values[k]] != []
    ensures Rule(values[k], seen[values[k]][FirstMax(KeyScores(seen[values[k]], counts[values[k]]))])
            == RulesFor(train, attr, target)[k]
  {
    var v := values[k];
    assert OrderOf(seen, v) == seen[v] && CountsOf(counts, v) == counts[v];
    RuleOfCounts(train, attr, target, v, seen[v], counts[v]);
  }

  /** The target of highest count, from the counts of a value, is its rule. */
  lemma RuleOfCounts(train: Dataset, attr: string, target: string, v: Value, order: seq<Value>, inner: map<Value, nat>)
    requires HasColumn(train, attr) && HasColumn(train, target) && v in Column(train, attr)
    requires order == Distinct(ValueTargets(train, attr, target, v))
    requires forall t :: t in inner <==> t in ValueTargets(train, attr, target, v)
    requires forall t | t in inner :: inner[t] == Count(ValueTargets(train, attr, target, v), t)
    ensures order != [] && order[FirstMax(KeyScores(order, inner))] == RuleLabel(train, attr, target, v)
  {
    var ts := ValueTargets(train, attr, target, v);
    ValueTargetsNonEmpty(train, attr, target, v);
    assert ts[0] in order;
    assert KeyScores(order, inner) == CountScores(ts, order);
  }

  /** `counts[v]` of the defaultdict: the inner dict, empty when v is new. */
  function CountsOf(counts: map<Value, map<Value, nat>>, v: Value): (inner: map<Value, nat>)
    ensures v !in counts ==> inner == map[]
  {
    if v in counts then counts[v] else map[]
  }

  /** The order in which the keys of `counts[v]` were inserted. */
  function OrderOf(seen: map<Value, seq<Value>>, v: Value): (order: seq<Value>)
    ensures v !in seen ==> order == []
  {
    if v in seen then seen[v] else []
  }

  /** For every value, its targets in order of first occurrence. */
  ghost predicate OrderTallied(rows: Dataset, attr: string, target: string, seen: map<Value, seq<Value>>)
    requires HasColumn(rows, attr) && HasColumn(rows, target)
  {
    forall v :: OrderOf(seen, v) == Distinct(ValueTargets(rows, attr, target, v))
  }

  /** For every value, the count of each of its targets. */
  ghost predicate CountTallied(rows: Dataset, attr: string, target: string, counts: map<Value, map<Value, nat>>)
    requires HasColumn(rows, attr) && HasColumn(rows, target)
  {
    && (forall v, t :: t in CountsOf(counts, v) <==> t in ValueTargets(rows, attr, target, v))
    && (forall v, t | t in CountsOf(counts, v) :: CountsOf(counts, v)[t] == Count(ValueTargets(rows, attr, target, v), t))
  }

  /** What the counting loop knows after the rows `rows`: the values in
      order of first occurrence, for each the targets in order of first
      occurrence, and the count of each target. */
  ghost predicate Tallied(rows: Dataset, attr: string, target: string,
                          values: seq<Value>, seen: map<Value, seq<Value>>, counts: map<Value, map<Value, nat>>)
    requires HasColumn(rows, attr) && HasColumn(rows, target)
  {
    && values == Distinct(Column(rows, attr))
    && (forall v :: v in seen <==> v in values)
    && (forall v :: v in counts <==> v in values)
    && OrderTallied(rows, attr, target, seen)
    && CountTallied(rows, attr, target, counts)
  }

  /** Tallied after the first k rows of train. */
  ghost predicate TalliedUpTo(train: Dataset, k: nat, attr: string, target: string,
                              values: seq<Value>, seen: map<Value, seq<Value>>, counts: map<Value, map<Value, nat>>)
  {
    && HasColumn(train, attr) && HasColumn(train, target) && k <= |train|
    && Tallied(train[..k], attr, target, values, seen, counts)
  }

  /** The counting loop: `counts[row[attr]][row[target_attr]] += 1` on the
      nested defaultdicts, with the order in which values and targets first
      appear. */
  method TallyTargets(train: Dataset, attr: string, target: string)
    returns (values: seq<Value>, seen: map<Value, seq<Value>>, counts: map<Value, map<Value, nat>>)
    requires HasColumn(train, attr) && HasColumn(train, target)
    ensures Tallied(train, attr, target, values, seen, counts)
  {
    values, seen, counts := [], map[], map[];
    var k := 0;
    while k < |train|
      invariant 0 <= k <= |train|
      invariant TalliedUpTo(train, k, attr, target, values, seen, counts)
    {
      values, seen, counts := CountRow(train, attr, target, k, values, seen, counts);
      k := k + 1;
    }
    TalliedAll(train, attr, target, values, seen, counts);
  }

  /** `counts[row[attr]][row[target_attr]] += 1` for the k-th row. */
  method CountRow(train: Dataset, attr: string, target: string, k: nat,
                  values: seq<Value>, seen: map<Value, seq<Value>>, counts: map<Value, map<Value, nat>>)
    returns (values': seq<Value>, seen': map<Value, seq<Value>>, counts': map<Value, map<Value, nat>>)
    requires HasColumn(train, attr) && HasColumn(train, target) && k < |train|
    requires TalliedUpTo(train, k, attr, target, values, seen, counts)
    ensures TalliedUpTo(train, k + 1, attr, target, values', seen', counts')
  {
    var v, t := train[k][attr], train[k][target];
    var inner := CountsOf(counts, v);
    var c := if t in inner then inner[t] else 0;
    var order := OrderOf(seen, v) + (if t !in inner then [t] else []);
    values' := if v in counts then values else values + [v];
    seen', counts' := seen[v := order], counts[v := inner[t := c + 1]];
    TallyStep(train, attr, target, k, values, seen, counts, values', seen', counts');
  }

  /** The loop's state after all rows. */
  lemma TalliedAll(train: Dataset, attr: string, target: string,
                   values: seq<Value>, seen: map<Value, seq<Value>>, counts: map<Value, map<Value, nat>>)
    requires HasColumn(train, attr) && HasColumn(train, target)
    requires TalliedUpTo(train, |train|, attr, target, values, seen, counts)
    ensures Tallied(train, attr, target, values, seen, counts)
  {
    assert train[..|train|] == train;
  }

  /** One more row counted. */
  lemma TallyStep(train: Dataset, attr: string, target: string, k: nat,
                  values: seq<Value>, seen: map<Value, seq<Value>>, counts: map<Value, map<Value, nat>>,
                  values': seq<Value>, seen': map<Value, seq<Value>>, counts': map<Value, map<Value, nat>>)
    requires HasColumn(train, attr) && HasColumn(train, target) && k < |train|
    requires TalliedUpTo(train, k, attr, target, values, seen, counts)
    requires var v, t := train[k][attr], train[k][target];
      var inner := CountsOf(counts, v);
      && values' == (if v in counts then values else values + [v])
      && seen' == seen[v := OrderOf(seen, v) + (if t !in inner then [t] else [])]
      && counts' == counts[v := inner[t := (if t in inner then inner[t] else 0) + 1]]
    ensures TalliedUpTo(train, k + 1, attr, target, values', seen', counts')
  {
    var v, t := train[k][attr], train[k][target];
    var inner := CountsOf(counts, v);
    CountStep(train, attr, target, k, counts);
    OrderStep(train, attr, target, k, seen, t !in inner);
    ValuesStep(train, attr, target, k, values, seen, counts, seen'[v], counts'[v]);
  }

  /** The targets of one more row. */
  lemma ValueTargetsNext(train: Dataset, attr: string, target: string, k: nat, u: Value)
    requires HasColumn(train, attr) && HasColumn(train, target) && k < |train|
    ensures ValueTargets(train[..k + 1], attr, target, u)
            == ValueTargets(train[..k], attr, target, u) + (if train[k][attr] == u then [train[k][target]] else [])
  {
    assert train[..k + 1][..k] == train[..k];
  }

  /** One more row: the value is new exactly when it is not yet a key. */
  lemma ValuesStep(train: Dataset, attr: string, target: string, k: nat,
                   values: seq<Value>, seen: map<Value, seq<Value>>, counts: map<Value, map<Value, nat>>,
                   order: seq<Value>, inner: map<Value, nat>)
    requires HasColumn(train, attr) && HasColumn(train, target) && k < |train|
    requires Tallied(train[..k], attr, target, values, seen, counts)
    ensures var v := train[k][attr];
      var values' := if v in counts then values else values + [v];
      && values' == Distinct(Column(train[..k + 1], attr))
      && (forall u :: u in seen[v := order] <==> u in values')
      && (forall u :: u in counts[v := inner] <==> u in values')
  {
    var v := train[k][attr];
    assert train[..k + 1][..k] == train[..k];
    assert Column(train[..k + 1], attr) == Column(train[..k], attr) + [v];
    DistinctSnoc(Column(train[..k], attr), v);
  }

  /** One more row: its target joins the order of its value if new there. */
  lemma OrderStep(train: Dataset, attr: string, target: string, k: nat, seen: map<Value, seq<Value>>, isNew: bool)
    requires HasColumn(train, attr) && HasColumn(train, target) && k < |train|
    requires OrderTallied(train[..k], attr, target, seen)
    requires isNew <==> train[k][target] !in ValueTargets(train[..k], attr, target, train[k][attr])
    ensures var v, t := train[k][attr], train[k][target];
      OrderTallied(train[..k + 1], attr, target, seen[v := OrderOf(seen, v) + (if isNew then [t] else [])])
  {
    var v, t := train[k][attr], train[k][target];
    var seen' := seen[v := OrderOf(seen, v) + (if isNew then [t] else [])];
    forall u ensures OrderOf(seen', u) == Distinct(ValueTargets(train[..k + 1], attr, target, u)) {
      OrderAt(train, attr, target, k, OrderOf(seen, u), isNew, u);
    }
  }

  /** The order of one value after one more row. */
  lemma OrderAt(train: Dataset, attr: string, target: string, k: nat, before: seq<Value>, isNew: bool, u: Value)
    requires HasColumn(train, attr) && HasColumn(train, target) && k < |train|
    requires before == Distinct(ValueTargets(train[..k], attr, target, u))
    requires isNew <==> train[k][target] !in ValueTargets(train[..k], attr, target, train[k][attr])
    ensures (if u == train[k][attr] then before + (if isNew then [train[k][target]] else []) else before)
            == Distinct(ValueTargets(train[..k + 1], attr, target, u))
  {
    var ts := ValueTargets(train[..k], attr, target, u);
    ValueTargetsNext(train, attr, target, k, u);
    if u == train[k][attr] {
      DistinctSnoc(ts, train[k][target]);
    } else {
      assert ts + [] == ts;
    }
  }

  /** One more row: the count of its target under its value goes up by one. */
  lemma CountStep(train: Dataset, attr: string, target: string, k: nat, counts: map<Value, map<Value, nat>>)
    requires HasColumn(train, attr) && HasColumn(train, target) && k < |train|
    requires CountTallied(train[..k], attr, target, counts)
    ensures var v, t := train[k][attr], train[k][target];
      var inner := CountsOf(counts, v);
      var c := if t in inner then inner[t] else 0;
      && (t in inner <==> t in ValueTargets(train[..k], attr, target, v))
      && CountTallied(train[..k + 1], attr, target, counts[v := inner[t := c + 1]])
  {
    var v, t := train[k][attr], train[k][target];
    var inner := CountsOf(counts, v);
    var c := if t in inner then inner[t] else 0;
    var counts' := counts[v := inner[t := c + 1]];
    assert t in inner <==> t in ValueTargets(train[..k], attr, target, v);
    forall u, w
      ensures w in CountsOf(counts', u) <==> w in ValueTargets(train[..k + 1], attr, target, u)
      ensures w in CountsOf(counts', u) ==> CountsOf(counts', u)[w] == Count(ValueTargets(train[..k + 1], attr, target, u), w)
    {
      CountAt(train, attr, target, k, counts, u, w);
    }
  }

  /** The count of one target under one value after one more row. */
  lemma CountAt(train: Dataset, attr: string, target: string, k: nat, counts: map<Value, map<Value, nat>>, u: Value, w: Value)
    requires HasColumn(train, attr) && HasColumn(train, target) && k < |train|
    requires forall x :: x in CountsOf(counts, u) <==> x in ValueTargets(train[..k], attr, target, u)
    requires forall x | x in CountsOf(counts, u) :: CountsOf(counts, u)[x] == Count(ValueTargets(train[..k], attr, target, u), x)
    ensures var v, t := train[k][attr], train[k][target];
      var inner := CountsOf(counts, v);
      var after := CountsOf(counts[v := inner[t := (if t in inner then inner[t] else 0) + 1]], u);
      && (w in after <==> w in ValueTargets(train[..k + 1], attr, target, u))
      && (w in after ==> after[w] == Count(ValueTargets(train[..k + 1], attr, target, u), w))
  {
    var v, t := train[k][attr], train[k][target];
    ValueTargetsNext(train, attr, target, k, u);
    if u == v {
      var inner := CountsOf(counts, v);
      IncrementCount(ValueTargets(train[..k], attr, target, u), inner, t, w);
    } else {
      var ts := ValueTargets(train[..k], attr, target, u);
      assert ts + [] == ts;
    }
  }

  /** Counting one more target t keeps a tally of the targets ts. */
  lemma IncrementCount(ts: seq<Value>, inner: map<Value, nat>, t: Value, w: Value)
    requires forall x :: x in inner <==> x in ts
    requires forall x | x in inner :: inner[x] == Count(ts, x)
    ensures var after := inner[t := (if t in inner then inner[t] else 0) + 1];
      && (w in after <==> w in ts + [t])
      && (w in after ==> after[w] == Count(ts + [t], w))
  {
    CountAppend(ts, [t], w);
  }

  lemma DistinctSnoc(s: seq<Value>, x: Value)
    ensures Distinct(s + [x]) == if x in s then Distinct(s) else Distinct(s) + [x]
  {
    assert (s + [x])[..|s|] == s;
  }
}
