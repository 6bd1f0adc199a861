/** `calculate_chi_square`: Pearson's chi-square statistic of the
    contingency table of two categorical columns, its degrees of freedom,
    and the table laid out for display. */
module ChiSquare {
  import opened Data
  import opened Arith
  import opened Sums
  import opened Tally
  import opened Ordering

  /** A cell of the display table: a category or a count. */
  datatype TableCell = Label(v: Value) | CountCell(n: int)

  /** The third result: the empty dict `{}` when there is no row, otherwise
      the header row followed by one row of counts per category. */
  datatype DisplayTable = EmptyDict | Grid(rows: seq<seq<TableCell>>)

  datatype ChiSquareResult = ChiSquareResult(stat: real, df: int, table: DisplayTable)

  // ---------------------------------------------------------------------
  // Categories and the contingency table

  /** `sorted(list(set(row[column] for row in dataset)))`: KeyError when a
      row lacks the column, TypeError when two categories cannot be
      compared. */
  function Categories(ds: Dataset, column: string): (r: Outcome<seq<Value>>)
    ensures r.Ok? <==> HasColumn(ds, column) && SortedDistinct(Column(ds, column)).Ok?
    ensures r.Raise? ==> r.error == (if HasColumn(ds, column) then TypeError else KeyError)
    ensures r.Ok? ==> NoDuplicates(r.value) && SortedBy(r.value, ValueLe)
    ensures r.Ok? ==> forall v | v in r.value :: v in Column(ds, column)
    ensures r.Ok? ==> forall k | 0 <= k < |ds| :: ds[k][column] in r.value
  {
    if !HasColumn(ds, column) then Raise(KeyError)
    else
      var r := SortedDistinct(Column(ds, column));
      assert r.Ok? ==> forall k | 0 <= k < |ds| :: ds[k][column] in Column(ds, column);
      r
  }

  /** The position of a category in its list: the dict lookup by key. */
  function IndexOf<T(==)>(s: seq<T>, x: T): (i: nat)
    requires x in s
    ensures i < |s| && s[i] == x
  {
    if s[0] == x then 0 else 1 + IndexOf(s[1..], x)
  }

  /** The (column1, column2) cells of every row, in row order. */
  function Pairs(ds: Dataset, c1: string, c2: string): (p: seq<(Value, Value)>)
    requires HasColumn(ds, c1) && HasColumn(ds, c2)
    ensures |p| == |ds|
  {
    seq(|ds|, k requires 0 <= k < |ds| => (ds[k][c1], ds[k][c2]))
  }

  function Firsts<A, B>(s: seq<(A, B)>): (r: seq<A>)
    ensures |r| == |s|
  {
    seq(|s|, k requires 0 <= k < |s| => s[k].0)
  }

  function Seconds<A, B>(s: seq<(A, B)>): (r: seq<B>)
    ensures |r| == |s|
  {
    seq(|s|, k requires 0 <= k < |s| => s[k].1)
  }

  /** The cells of one row of the table: category a against every key. */
  function RowKeys<A, B>(a: A, keys: seq<B>): (r: seq<(A, B)>)
    ensures |r| == |keys|
  {
    seq(|keys|, j requires 0 <= j < |keys| => (a, keys[j]))
  }

  /** The cells of one column of the table: every key against category b. */
  function ColKeys<A, B>(keys: seq<A>, b: B): (r: seq<(A, B)>)
    ensures |r| == |keys|
  {
    seq(|keys|, i requires 0 <= i < |keys| => (keys[i], b))
  }

  /** `contingency_table` after the counting loop: entry (i, j) is the
      number of rows whose cells are (cats1[i], cats2[j]). */
  function Contingency(pairs: seq<(Value, Value)>, cats1: seq<Value>, cats2: seq<Value>): (t: seq<seq<int>>)
    ensures |t| == |cats1|
    ensures forall i | 0 <= i < |cats1| :: |t[i]| == |cats2|
  {
    seq(|cats1|, i requires 0 <= i < |cats1| => Counts(pairs, RowKeys(cats1[i], cats2)))
  }

  /** `row_totals` */
  function RowTotals(t: seq<seq<int>>): (r: seq<int>)
    ensures |r| == |t|
  {
    seq(|t|, i requires 0 <= i < |t| => SumInt(t[i]))
  }

  /** Column j of a table whose rows all have more than j entries. */
  function ColumnOf(t: seq<seq<int>>, j: nat): (c: seq<int>)
    requires forall i | 0 <= i < |t| :: j < |t[i]|
    ensures |c| == |t|
  {
    seq(|t|, i requires 0 <= i < |t| => t[i][j])
  }

  /** `col_totals` */
  function ColTotals(t: seq<seq<int>>, n: nat): (r: seq<int>)
    requires forall i | 0 <= i < |t| :: |t[i]| == n
    ensures |r| == n
  {
    seq(n, j requires 0 <= j < n => SumInt(ColumnOf(t, j)))
  }

  /** The counting loop: `contingency_table[row[column1]][row[column2]] += 1`
      for every row, starting from a table of zeros. */
  method CountTable(ds: Dataset, c1: string, c2: string, cats1: seq<Value>, cats2: seq<Value>)
    returns (t: seq<seq<int>>)
    requires HasColumn(ds, c1) && HasColumn(ds, c2)
    requires NoDuplicates(cats1) && NoDuplicates(cats2)
    requires forall k | 0 <= k < |ds| :: ds[k][c1] in cats1 && ds[k][c2] in cats2
    ensures t == Contingency(Pairs(ds, c1, c2), cats1, cats2)
  {
    t := seq(|cats1|, i requires 0 <= i < |cats1| => seq(|cats2|, j requires 0 <= j < |cats2| => 0));
    ContingencyEmpty(cats1, cats2);
    var k := 0;
    while k < |ds|
      invariant 0 <= k <= |ds|
      invariant t == Contingency(Pairs(ds, c1, c2)[..k], cats1, cats2)
    {
      var i := IndexOf(cats1, ds[k][c1]);
      var j := IndexOf(cats2, ds[k][c2]);
      ContingencyStep(Pairs(ds, c1, c2)[..k], (ds[k][c1], ds[k][c2]), cats1, cats2, i, j);
      assert Pairs(ds, c1, c2)[..k + 1] == Pairs(ds, c1, c2)[..k] + [(ds[k][c1], ds[k][c2])];
      t := t[i := t[i][j := t[i][j] + 1]];
      k := k + 1;
    }
    assert Pairs(ds, c1, c2)[..k] == Pairs(ds, c1, c2);
  }

  /** Before any row is counted every entry is zero. */
  lemma ContingencyEmpty(cats1: seq<Value>, cats2: seq<Value>)
    ensures Contingency([], cats1, cats2)
         == seq(|cats1|, i requires 0 <= i < |cats1| => seq(|cats2|, j requires 0 <= j < |cats2| => 0))
  {
    var zeros := seq(|cats2|, j requires 0 <= j < |cats2| => 0);
    forall i | 0 <= i < |cats1| ensures Contingency([], cats1, cats2)[i] == zeros {
      assert Counts([], RowKeys(cats1[i], cats2)) == zeros;
    }
  }

  /** Counting one more row adds one to its own cell and to no other. */
  lemma ContingencyStep(pairs: seq<(Value, Value)>, p: (Value, Value), cats1: seq<Value>, cats2: seq<Value>, i: nat, j: nat)
    requires NoDuplicates(cats1) && NoDuplicates(cats2)
    requires i < |cats1| && j < |cats2| && p == (cats1[i], cats2[j])
    ensures var t := Contingency(pairs, cats1, cats2);
      Contingency(pairs + [p], cats1, cats2) == t[i := t[i][j := t[i][j] + 1]]
  {
    var t := Contingency(pairs, cats1, cats2);
    var t' := Contingency(pairs + [p], cats1, cats2);
    var u := t[i := t[i][j := t[i][j] + 1]];
    forall i' | 0 <= i' < |cats1| ensures t'[i'] == u[i'] {
      forall j' | 0 <= j' < |cats2| ensures t'[i'][j'] == u[i'][j'] {
        var x := (cats1[i'], cats2[j']);
        CountAppend(pairs, [p], x);
        assert p == x <==> i' == i && j' == j;
      }
    }
  }

  // ---------------------------------------------------------------------
  // The statistic

  /** `(row_totals[cat1] * col_totals[cat2]) / grand_total` */
  function Expected(rowTotal: int, colTotal: int, grand: int): real
    requires grand != 0
  {
    Times(rowTotal as real, colTotal as real) / grand as real
  }

  /** One cell's share of the statistic, `(observed - expected) ** 2 / expected`,
      or nothing when the expected count is zero. */
  function CellTerm(observed: int, expected: real): real {
    if expected == 0.0 then 0.0 else Square(observed as real - expected) / expected
  }

  /** A table with a total per row and per column. */
  predicate Shaped(t: seq<seq<int>>, rowT: seq<int>, colT: seq<int>) {
    |rowT| == |t| && forall i | 0 <= i < |t| :: |t[i]| == |colT|
  }

  /** The expected counts of one row of the table. */
  function ExpectedRow(rowTotal: int, colT: seq<int>, grand: int): (e: seq<real>)
    requires grand != 0
    ensures |e| == |colT|
  {
    seq(|colT|, j requires 0 <= j < |colT| => Expected(rowTotal, colT[j], grand))
  }

  function CellTerms(observed: seq<int>, expected: seq<real>): (r: seq<real>)
    requires |observed| == |expected|
    ensures |r| == |observed|
  {
    seq(|observed|, j requires 0 <= j < |observed| => CellTerm(observed[j], expected[j]))
  }

  function RowTerms(t: seq<seq<int>>, rowT: seq<int>, colT: seq<int>, grand: int, i: nat): (r: seq<real>)
    requires Shaped(t, rowT, colT) && grand != 0 && i < |t|
    ensures |r| == |colT|
  {
    CellTerms(t[i], ExpectedRow(rowT[i], colT, grand))
  }

  function RowSums(t: seq<seq<int>>, rowT: seq<int>, colT: seq<int>, grand: int): (r: seq<real>)
    requires Shaped(t, rowT, colT) && grand != 0
    ensures |r| == |t|
  {
    seq(|t|, i requires 0 <= i < |t| => Sum(RowTerms(t, rowT, colT, grand, i)))
  }

  /** The statistic: the cell terms summed over the whole table. */
  function ChiStat(t: seq<seq<int>>, rowT: seq<int>, colT: seq<int>, grand: int): real
    requires Shaped(t, rowT, colT) && grand != 0
  {
    Sum(RowSums(t, rowT, colT, grand))
  }

  /** The nested `for cat1 ... for cat2` loop that accumulates the statistic. */
  method SumChiTerms(t: seq<seq<int>>, rowT: seq<int>, colT: seq<int>, grand: int) returns (stat: real)
    requires Shaped(t, rowT, colT) && grand != 0
    ensures stat == ChiStat(t, rowT, colT, grand)
  {
    stat := 0.0;
    var i := 0;
    while i < |t|
      invariant 0 <= i <= |t|
      invariant stat == Sum(RowSums(t, rowT, colT, grand)[..i])
    {
      ghost var terms := RowTerms(t, rowT, colT, grand, i);
      ghost var before := stat;
      var j := 0;
      while j < |colT|
        invariant 0 <= j <= |colT|
        invariant stat == before + Sum(terms[..j])
      {
        var expected := Expected(rowT[i], colT[j], grand);
        if expected != 0.0 {
          var observed := t[i][j];
          stat := stat + Square(observed as real - expected) / expected;
        }
        assert terms[..j + 1][..j] == terms[..j];
        j := j + 1;
      }
      assert terms[..j] == terms;
      assert RowSums(t, rowT, colT, grand)[..i + 1][..i] == RowSums(t, rowT, colT, grand)[..i];
      i := i + 1;
    }
    assert RowSums(t, rowT, colT, grand)[..i] == RowSums(t, rowT, colT, grand);
  }

  // ---------------------------------------------------------------------
  // The display table

  /** `[""] + categories2` */
  function HeaderRow(cats2: seq<Value>): (r: seq<TableCell>)
    ensures |r| == |cats2| + 1
  {
    [Label(Str(""))] + seq(|cats2|, j requires 0 <= j < |cats2| => Label(cats2[j]))
  }

  /** `[cat1] + [contingency_table[cat1][cat2] for cat2 in categories2]` */
  function TableRow(cat: Value, counts: seq<int>): (r: seq<TableCell>)
    ensures |r| == |counts| + 1
  {
    [Label(cat)] + seq(|counts|, j requires 0 <= j < |counts| => CountCell(counts[j]))
  }

  /** `table_for_json` once the loop that appends a row per category is done. */
  function DisplayRows(cats1: seq<Value>, cats2: seq<Value>, t: seq<seq<int>>): (r: seq<seq<TableCell>>)
    requires |t| == |cats1|
    ensures |r| == |cats1| + 1
  {
    [HeaderRow(cats2)] + seq(|cats1|, i requires 0 <= i < |cats1| => TableRow(cats1[i], t[i]))
  }

  /** The loop that appends one display row per category of column1. */
  method BuildDisplayRows(cats1: seq<Value>, cats2: seq<Value>, t: seq<seq<int>>) returns (rows: seq<seq<TableCell>>)
    requires |t| == |cats1|
    ensures rows == DisplayRows(cats1, cats2, t)
  {
    rows := [HeaderRow(cats2)];
    var i := 0;
    while i < |cats1|
      invariant 0 <= i <= |cats1|
      invariant rows == DisplayRows(cats1[..i], cats2, t[..i])
    {
      assert DisplayRows(cats1[..i + 1], cats2, t[..i + 1])
          == DisplayRows(cats1[..i], cats2, t[..i]) + [TableRow(cats1[i], t[i])];
      rows := rows + [TableRow(cats1[i], t[i])];
      i := i + 1;
    }
    assert cats1[..i] == cats1 && t[..i] == t;
  }

  // ---------------------------------------------------------------------
  // calculate_chi_square

  /** The result of `calculate_chi_square(dataset, column1, column2)`. */
  function ChiSquareOf(ds: Dataset, c1: string, c2: string): Outcome<ChiSquareResult> {
    match Categories(ds, c1)
    case Raise(e) => Raise(e)
    case Ok(cats1) =>
      match Categories(ds, c2)
      case Raise(e) => Raise(e)
      case Ok(cats2) =>
        var t := Contingency(Pairs(ds, c1, c2), cats1, cats2);
        var rowT := RowTotals(t);
        var colT := ColTotals(t, |cats2|);
        var grand := SumInt(rowT);
        if grand == 0 then Ok(ChiSquareResult(0.0, 0, EmptyDict))
        else Ok(ChiSquareResult(ChiStat(t, rowT, colT, grand), (|cats1| - 1) * (|cats2| - 1),
                                Grid(DisplayRows(cats1, cats2, t))))
  }

  method CalculateChiSquare(ds: Dataset, column1: string, column2: string) returns (r: Outcome<ChiSquareResult>)
    ensures r == ChiSquareOf(ds, column1, column2)
  {
    var categories1 := Categories(ds, column1);
    if categories1.Raise? {
      return Raise(categories1.error);
    }
    var categories2 := Categories(ds, column2);
    if categories2.Raise? {
      return Raise(categories2.error);
    }
    var cats1, cats2 := categories1.value, categories2.value;
    var table := CountTable(ds, column1, column2, cats1, cats2);
    var rowTotals := RowTotals(table);
    var colTotals := ColTotals(table, |cats2|);
    var grandTotal := SumInt(rowTotals);
    if grandTotal == 0 {
      return Ok(ChiSquareResult(0.0, 0, EmptyDict));
    }
    var stat := SumChiTerms(table, rowTotals, colTotals, grandTotal);
    var df := (|cats1| - 1) * (|cats2| - 1);
    var rows := BuildDisplayRows(cats1, cats2, table);
    return Ok(ChiSquareResult(stat, df, Grid(rows)));
  }

  // ---------------------------------------------------------------------
  // Properties

  /** Summing a row of the table counts the rows of that category: every
      second cell is one of the keys, each key once. */
  lemma {:induction false} RowSum<A, B>(pairs: seq<(A, B)>, a: A, keys: seq<B>)
    requires NoDuplicates(keys)
    requires forall k | 0 <= k < |pairs| :: pairs[k].1 in keys
    ensures SumInt(Counts(pairs, RowKeys(a, keys))) == Count(Firsts(pairs), a)
  {
    if pairs == [] {
      SumCounts(pairs, RowKeys(a, keys));
    } else {
      var init := pairs[..|pairs| - 1];
      var p := pairs[|pairs| - 1];
      assert pairs == init + [p];
      RowSum(init, a, keys);
      SumCountsSnoc(init, p, RowKeys(a, keys));
      KeysDistinct(a, keys);
      CountNoDuplicates(RowKeys(a, keys), p);
      assert p in RowKeys(a, keys) <==> p.0 == a by {
        if p.0 == a {
          var j := IndexOf(keys, p.1);
          assert RowKeys(a, keys)[j] == p;
        }
      }
      assert Firsts(pairs) == Firsts(init) + [p.0];
    }
  }

  /** Summing a column of the table counts the rows of that category. */
  lemma {:induction false} ColSum<A, B>(pairs: seq<(A, B)>, keys: seq<A>, b: B)
    requires NoDuplicates(keys)
    requires forall k | 0 <= k < |pairs| :: pairs[k].0 in keys
    ensures SumInt(Counts(pairs, ColKeys(keys, b))) == Count(Seconds(pairs), b)
  {
    if pairs == [] {
      SumCounts(pairs, ColKeys(keys, b));
    } else {
      var init := pairs[..|pairs| - 1];
      var p := pairs[|pairs| - 1];
      assert pairs == init + [p];
      ColSum(init, keys, b);
      SumCountsSnoc(init, p, ColKeys(keys, b));
      KeysDistinct'(keys, b);
      CountNoDuplicates(ColKeys(keys, b), p);
      assert p in ColKeys(keys, b) <==> p.1 == b by {
        if p.1 == b {
          var i := IndexOf(keys, p.0);
          assert ColKeys(keys, b)[i] == p;
        }
      }
      assert Seconds(pairs) == Seconds(init) + [p.1];
    }
  }

  lemma KeysDistinct<A, B>(a: A, keys: seq<B>)
    requires NoDuplicates(keys)
    ensures NoDuplicates(RowKeys(a, keys))
  {
  }

  lemma KeysDistinct'<A, B>(keys: seq<A>, b: B)
    requires NoDuplicates(keys)
    ensures NoDuplicates(ColKeys(keys, b))
  {
  }

  /** Every row total is the number of rows in that category of column1,
      every column total the number in that category of column2; so each
      total is at least one, and both add up to the number of rows. */
  lemma ContingencyTotals(ds: Dataset, c1: string, c2: string, cats1: seq<Value>, cats2: seq<Value>)
    requires Categories(ds, c1) == Ok(cats1) && Categories(ds, c2) == Ok(cats2)
    ensures var t := Contingency(Pairs(ds, c1, c2), cats1, cats2);
      var rowT := RowTotals(t);
      var colT := ColTotals(t, |cats2|);
      (forall i | 0 <= i < |cats1| :: rowT[i] == Count(Column(ds, c1), cats1[i]) && rowT[i] >= 1) &&
      (forall j | 0 <= j < |cats2| :: colT[j] == Count(Column(ds, c2), cats2[j]) && colT[j] >= 1) &&
      SumInt(rowT) == |ds| && SumInt(colT) == |ds|
  {
    RowTotalsCount(ds, c1, c2, cats1, cats2);
    ColTotalsCount(ds, c1, c2, cats1, cats2);
    CountsOfCategories(ds, c1, cats1);
    CountsOfCategories(ds, c2, cats2);
  }

  /** The counts of a column's categories are positive and add up to the
      number of rows. */
  lemma CountsOfCategories(ds: Dataset, c: string, cats: seq<Value>)
    requires Categories(ds, c) == Ok(cats)
    ensures forall i | 0 <= i < |cats| :: Counts(Column(ds, c), cats)[i] >= 1
    ensures SumInt(Counts(Column(ds, c), cats)) == |ds|
  {
    var col := Column(ds, c);
    forall x | x in col ensures x in cats {
      var k :| 0 <= k < |col| && col[k] == x;
      assert ds[k][c] in cats;
    }
    SumCounts(col, cats);
    forall i | 0 <= i < |cats| ensures Counts(col, cats)[i] >= 1 {
      assert cats[i] in col;
    }
  }

  lemma RowTotalsCount(ds: Dataset, c1: string, c2: string, cats1: seq<Value>, cats2: seq<Value>)
    requires Categories(ds, c1) == Ok(cats1) && Categories(ds, c2) == Ok(cats2)
    ensures RowTotals(Contingency(Pairs(ds, c1, c2), cats1, cats2)) == Counts(Column(ds, c1), cats1)
  {
    var pairs := Pairs(ds, c1, c2);
    var t := Contingency(pairs, cats1, cats2);
    assert Firsts(pairs) == Column(ds, c1);
    forall i | 0 <= i < |cats1| ensures RowTotals(t)[i] == Count(Column(ds, c1), cats1[i]) {
      RowSum(pairs, cats1[i], cats2);
    }
  }

  lemma ColTotalsCount(ds: Dataset, c1: string, c2: string, cats1: seq<Value>, cats2: seq<Value>)
    requires Categories(ds, c1) == Ok(cats1) && Categories(ds, c2) == Ok(cats2)
    ensures ColTotals(Contingency(Pairs(ds, c1, c2), cats1, cats2), |cats2|) == Counts(Column(ds, c2), cats2)
  {
    var pairs := Pairs(ds, c1, c2);
    var t := Contingency(pairs, cats1, cats2);
    assert Seconds(pairs) == Column(ds, c2);
    forall j | 0 <= j < |cats2| ensures ColTotals(t, |cats2|)[j] == Count(Column(ds, c2), cats2[j]) {
      assert ColumnOf(t, j) == Counts(pairs, ColKeys(cats1, cats2[j]));
      ColSum(pairs, cats1, cats2[j]);
    }
  }

  /** On a non-empty dataset every expected count is positive, so the
      `if expected == 0: continue` branch never runs. */
  lemma ExpectedPositive(ds: Dataset, c1: string, c2: string, cats1: seq<Value>, cats2: seq<Value>)
    requires Categories(ds, c1) == Ok(cats1) && Categories(ds, c2) == Ok(cats2)
    requires ds != []
    ensures var t := Contingency(Pairs(ds, c1, c2), cats1, cats2);
      var rowT := RowTotals(t);
      var colT := ColTotals(t, |cats2|);
      SumInt(rowT) != 0 &&
      forall i, j | 0 <= i < |cats1| && 0 <= j < |cats2| :: Expected(rowT[i], colT[j], SumInt(rowT)) > 0.0
  {
    var t := Contingency(Pairs(ds, c1, c2), cats1, cats2);
    ContingencyTotals(ds, c1, c2, cats1, cats2);
    PositiveTotals(RowTotals(t), ColTotals(t, |cats2|), SumInt(RowTotals(t)));
  }

  lemma PositiveTotals(rowT: seq<int>, colT: seq<int>, grand: int)
    requires grand > 0
    requires forall i | 0 <= i < |rowT| :: rowT[i] >= 1
    requires forall j | 0 <= j < |colT| :: colT[j] >= 1
    ensures forall i, j | 0 <= i < |rowT| && 0 <= j < |colT| :: Expected(rowT[i], colT[j], grand) > 0.0
  {
    forall i, j | 0 <= i < |rowT| && 0 <= j < |colT| ensures Expected(rowT[i], colT[j], grand) > 0.0 {
      PositiveProduct(rowT[i] as real, colT[j] as real);
      QuotientMonotone(0.0, Times(rowT[i] as real, colT[j] as real), grand as real);
    }
  }

  /** A cell term is never negative, and is zero exactly when the expected
      count is zero or met. */
  lemma CellTermFacts(observed: int, expected: real)
    requires expected >= 0.0
    ensures CellTerm(observed, expected) >= 0.0
    ensures CellTerm(observed, expected) == 0.0 <==> expected == 0.0 || observed as real == expected
  {
    if expected > 0.0 {
      SquareNonNegative(observed as real - expected);
      QuotientMonotone(0.0, Square(observed as real - expected), expected);
    }
  }

  /** The statistic is never negative, and is zero exactly when every
      observed count equals its (non-zero) expected count. */
  lemma ChiStatNonNegative(t: seq<seq<int>>, rowT: seq<int>, colT: seq<int>, grand: int)
    requires Shaped(t, rowT, colT) && grand > 0
    requires forall i | 0 <= i < |rowT| :: rowT[i] >= 0
    requires forall j | 0 <= j < |colT| :: colT[j] >= 0
    ensures ChiStat(t, rowT, colT, grand) >= 0.0
    ensures ChiStat(t, rowT, colT, grand) == 0.0 <==>
      forall i | 0 <= i < |t| :: Matches(t[i], ExpectedRow(rowT[i], colT, grand))
  {
    var sums := RowSums(t, rowT, colT, grand);
    forall i | 0 <= i < |t|
      ensures sums[i] >= 0.0 && (sums[i] == 0.0 <==> Matches(t[i], ExpectedRow(rowT[i], colT, grand)))
    {
      ExpectedRowNonNegative(rowT[i], colT, grand);
      CellTermsFacts(t[i], ExpectedRow(rowT[i], colT, grand));
    }
    SumNonNegative(sums);
  }

  /** Every observed count equals its expected count, where that is non-zero. */
  predicate Matches(observed: seq<int>, expected: seq<real>)
    requires |observed| == |expected|
  {
    forall j | 0 <= j < |expected| && expected[j] != 0.0 :: observed[j] as real == expected[j]
  }

  lemma ExpectedRowNonNegative(rowTotal: int, colT: seq<int>, grand: int)
    requires rowTotal >= 0 && grand > 0
    requires forall j | 0 <= j < |colT| :: colT[j] >= 0
    ensures forall j | 0 <= j < |colT| :: ExpectedRow(rowTotal, colT, grand)[j] >= 0.0
  {
    forall j | 0 <= j < |colT| ensures ExpectedRow(rowTotal, colT, grand)[j] >= 0.0 {
      NonNegativeProduct(rowTotal as real, colT[j] as real);
      QuotientMonotone(0.0, Times(rowTotal as real, colT[j] as real), grand as real);
    }
  }

  /** One row's share of the statistic is never negative, and zero exactly
      when the row matches its expected counts. */
  lemma CellTermsFacts(observed: seq<int>, expected: seq<real>)
    requires |observed| == |expected|
    requires forall j | 0 <= j < |expected| :: expected[j] >= 0.0
    ensures Sum(CellTerms(observed, expected)) >= 0.0
    ensures Sum(CellTerms(observed, expected)) == 0.0 <==> Matches(observed, expected)
  {
    var terms := CellTerms(observed, expected);
    forall j | 0 <= j < |terms|
      ensures terms[j] >= 0.0
      ensures terms[j] == 0.0 <==> expected[j] == 0.0 || observed[j] as real == expected[j]
    {
      CellTermFacts(observed[j], expected[j]);
    }
    SumNonNegative(terms);
  }

  /** The display table: a header of the column2 categories, then for each
      column1 category its label and the number of rows holding each pair. */
  lemma DisplayTableCounts(ds: Dataset, c1: string, c2: string, cats1: seq<Value>, cats2: seq<Value>)
    requires Categories(ds, c1) == Ok(cats1) && Categories(ds, c2) == Ok(cats2)
    ensures var rows := DisplayRows(cats1, cats2, Contingency(Pairs(ds, c1, c2), cats1, cats2));
      |rows| == |cats1| + 1 &&
      rows[0][0] == Label(Str("")) &&
      (forall j | 0 <= j < |cats2| :: rows[0][j + 1] == Label(cats2[j])) &&
      forall i | 0 <= i < |cats1| ::
        |rows[i + 1]| == |cats2| + 1 && rows[i + 1][0] == Label(cats1[i]) &&
        forall j | 0 <= j < |cats2| ::
          rows[i + 1][j + 1] == CountCell(Count(Pairs(ds, c1, c2), (cats1[i], cats2[j])))
  {
    var t := Contingency(Pairs(ds, c1, c2), cats1, cats2);
    DisplayRowsCells(cats1, cats2, t);
    assert forall i, j | 0 <= i < |cats1| && 0 <= j < |cats2| ::
      t[i][j] == Count(Pairs(ds, c1, c2), (cats1[i], cats2[j]));
  }

  lemma DisplayRowsCells(cats1: seq<Value>, cats2: seq<Value>, t: seq<seq<int>>)
    requires |t| == |cats1|
    requires forall i | 0 <= i < |t| :: |t[i]| == |cats2|
    ensures var rows := DisplayRows(cats1, cats2, t);
      rows[0][0] == Label(Str("")) &&
      (forall j | 0 <= j < |cats2| :: rows[0][j + 1] == Label(cats2[j])) &&
      forall i | 0 <= i < |cats1| ::
        |rows[i + 1]| == |cats2| + 1 && rows[i + 1][0] == Label(cats1[i]) &&
        forall j | 0 <= j < |cats2| :: rows[i + 1][j + 1] == CountCell(t[i][j])
    ensures var rows := DisplayRows(cats1, cats2, t);
      forall i | 0 <= i < |rows| :: |rows[i]| == |cats2| + 1
  {
  }

  /** The chi-square call fails exactly when a row lacks one of the columns
      or a column mixes categories that cannot be compared; column1 is
      checked first. On an empty dataset it returns (0, 0, {}), and only
      there. */
  lemma ChiSquareOutcomes(ds: Dataset, c1: string, c2: string)
    ensures var r := ChiSquareOf(ds, c1, c2);
      (r.Ok? <==> HasColumn(ds, c1) && HasColumn(ds, c2) &&
                  SortedDistinct(Column(ds, c1)).Ok? && SortedDistinct(Column(ds, c2)).Ok?) &&
      (!HasColumn(ds, c1) ==> r == Raise(KeyError)) &&
      (r.Ok? ==> (r.value.table == EmptyDict <==> ds == [])) &&
      (r.Ok? && ds == [] ==> r.value == ChiSquareResult(0.0, 0, EmptyDict))
  {
    var r := ChiSquareOf(ds, c1, c2);
    if r.Ok? {
      var cats1 := Categories(ds, c1).value;
      var cats2 := Categories(ds, c2).value;
      ContingencyTotals(ds, c1, c2, cats1, cats2);
    }
  }

  /** On a non-empty dataset a successful call returns
      df = (|categories1| - 1) * (|categories2| - 1) and a table of
      1 + |categories1| rows of 1 + |categories2| cells, whose inner cells
      count the rows holding that pair of categories. */
  lemma ChiSquareShape(ds: Dataset, c1: string, c2: string, cats1: seq<Value>, cats2: seq<Value>)
    requires ds != [] && Categories(ds, c1) == Ok(cats1) && Categories(ds, c2) == Ok(cats2)
    ensures ChiSquareOf(ds, c1, c2).Ok?
    ensures ChiSquareOf(ds, c1, c2).value.df == (|cats1| - 1) * (|cats2| - 1)
    ensures ChiSquareOf(ds, c1, c2).value.table.Grid?
    ensures var rows := ChiSquareOf(ds, c1, c2).value.table.rows;
      && |rows| == |cats1| + 1
      && (forall i | 0 <= i < |rows| :: |rows[i]| == |cats2| + 1)
      && forall i, j | 0 <= i < |cats1| && 0 <= j < |cats2| ::
           rows[i + 1][j + 1] == CountCell(Count(Pairs(ds, c1, c2), (cats1[i], cats2[j])))
  {
    var t := Contingency(Pairs(ds, c1, c2), cats1, cats2);
    ContingencyTotals(ds, c1, c2, cats1, cats2);
    var rows := DisplayRows(cats1, cats2, t);
    assert ChiSquareOf(ds, c1, c2) == Ok(ChiSquareResult(ChiStat(t, RowTotals(t), ColTotals(t, |cats2|), SumInt(RowTotals(t))),
                                                         (|cats1| - 1) * (|cats2| - 1), Grid(rows)));
    DisplayTableCounts(ds, c1, c2, cats1, cats2);
    DisplayRowsCells(cats1, cats2, t);
  }

  /** A successful call on a non-empty dataset yields a non-negative
      statistic. */
  lemma ChiSquareNonNegative(ds: Dataset, c1: string, c2: string)
    requires ChiSquareOf(ds, c1, c2).Ok?
    ensures ChiSquareOf(ds, c1, c2).value.stat >= 0.0
  {
    if ds != [] {
      var cats1 := Categories(ds, c1).value;
      var cats2 := Categories(ds, c2).value;
      var t := Contingency(Pairs(ds, c1, c2), cats1, cats2);
      ContingencyTotals(ds, c1, c2, cats1, cats2);
      ChiStatNonNegative(t, RowTotals(t), ColTotals(t, |cats2|), SumInt(RowTotals(t)));
    }
  }
}
