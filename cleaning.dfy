/** `handle_missing_values`: dropping every row that holds a missing cell, or
    filling the missing cells of one column with the mean of its numbers.
    A cell is missing when it is None or its text is blank (`IsBlank`).
    `remove_rows` builds a new list; `fill_mean` overwrites `row[column]` in
    the rows themselves, which the model does on an array of rows. */
module Cleaning {
  import opened Data
  import opened Arith
  import opened Sums
  import opened Tally
  import opened Statistics

  // ---------------------------------------------------------------------
  // remove_rows

  /** Some value of the row is missing. */
  predicate HasBlankCell(row: Row) {
    exists k | k in row :: IsBlank(row[k])
  }

  /** The rows that hold no missing cell, in their original order. */
  function WithoutBlankRows(ds: Dataset): (r: Dataset)
    ensures |r| <= |ds|
    ensures forall row | row in r :: row in ds && !HasBlankCell(row)
    ensures forall row | row in ds && !HasBlankCell(row) :: row in r
  {
    if ds == [] then []
    else
      var init := ds[..|ds| - 1];
      var last := ds[|ds| - 1];
      assert ds == init + [last];
      WithoutBlankRows(init) + (if HasBlankCell(last) then [] else [last])
  }

  /** Filtering distributes over concatenation, so kept rows keep their order. */
  lemma {:induction false} WithoutBlankRowsAppend(a: Dataset, b: Dataset)
    ensures WithoutBlankRows(a + b) == WithoutBlankRows(a) + WithoutBlankRows(b)
  {
    if b == [] {
      assert a + b == a;
    } else {
      var init := b[..|b| - 1];
      assert (a + b)[..|a + b| - 1] == a + init;
      WithoutBlankRowsAppend(a, init);
    }
  }

  /** A complete row is kept as often as it occurs; a row with a missing
      cell is dropped every time. */
  lemma {:induction false} WithoutBlankRowsCount(ds: Dataset, row: Row)
    ensures Count(WithoutBlankRows(ds), row) == if HasBlankCell(row) then 0 else Count(ds, row)
  {
    if ds != [] {
      var init := ds[..|ds| - 1];
      var last := ds[|ds| - 1];
      WithoutBlankRowsCount(init, row);
      CountAppend(WithoutBlankRows(init), if HasBlankCell(last) then [] else [last], row);
    }
  }

  /** `remove_rows` leaves a dataset alone exactly when no row has a missing
      cell; in particular, applying it twice is applying it once. */
  lemma {:induction false} WithoutBlankRowsFixed(ds: Dataset)
    ensures WithoutBlankRows(ds) == ds <==> forall i | 0 <= i < |ds| :: !HasBlankCell(ds[i])
  {
    if ds != [] {
      var init := ds[..|ds| - 1];
      WithoutBlankRowsFixed(init);
      if forall i | 0 <= i < |ds| :: !HasBlankCell(ds[i]) {
        assert forall i | 0 <= i < |init| :: !HasBlankCell(init[i]) by {
          forall i | 0 <= i < |init| ensures !HasBlankCell(init[i]) { assert init[i] == ds[i]; }
        }
        assert ds == init + [ds[|ds| - 1]];
      }
    }
  }

  lemma WithoutBlankRowsIdempotent(ds: Dataset)
    ensures WithoutBlankRows(WithoutBlankRows(ds)) == WithoutBlankRows(ds)
  {
    var r := WithoutBlankRows(ds);
    assert forall i | 0 <= i < |r| :: !HasBlankCell(r[i]) by {
      forall i | 0 <= i < |r| ensures !HasBlankCell(r[i]) { assert r[i] in r; }
    }
    WithoutBlankRowsFixed(r);
  }

  // ---------------------------------------------------------------------
  // fill_mean

  /** The row after filling: `row.get(column)` is missing (an absent key
      reads as None) and becomes `fill`; otherwise the row is unchanged. */
  function FilledRow(row: Row, column: string, fill: real): Row {
    if IsBlank(Get(row, column, Null)) then row[column := Num(fill)] else row
  }

  function Filled(ds: Dataset, column: string, fill: real): (r: Dataset)
    ensures |r| == |ds|
  {
    seq(|ds|, i requires 0 <= i < |ds| => FilledRow(ds[i], column, fill))
  }

  /** The dataset `fill_mean` leaves behind: the missing cells of `column`
      hold the mean of its numbers, or nothing changes when it has none. */
  function MeanFilled(ds: Dataset, column: string): Dataset {
    var values := NumericColumn(ds, column);
    if values == [] then ds else Filled(ds, column, Mean(values))
  }

  /** The `for row in dataset` loop of `fill_mean`. */
  method FillColumn(rows: array<Row>, column: string, fill: real)
    modifies rows
    ensures rows[..] == Filled(old(rows[..]), column, fill)
  {
    var i := 0;
    while i < rows.Length
      invariant 0 <= i <= rows.Length
      invariant forall j | 0 <= j < i :: rows[j] == FilledRow(old(rows[j]), column, fill)
      invariant forall j | i <= j < rows.Length :: rows[j] == old(rows[j])
    {
      var val := Get(rows[i], column, Null);
      if IsBlank(val) {
        rows[i] := rows[i][column := Num(fill)];
      }
      i := i + 1;
    }
  }

  /** `handle_missing_values(dataset, method, column)`. The column name ""
      stands for both `None` and the empty name, which `not column` rejects
      alike. */
  method HandleMissingValues(rows: array<Row>, methodName: string, column: string) returns (r: Outcome<Dataset>)
    modifies rows
    ensures methodName == "remove_rows" ==>
      r == Ok(WithoutBlankRows(old(rows[..]))) && rows[..] == old(rows[..])
    ensures methodName == "fill_mean" && column == "" ==>
      r == Raise(ValueError("Column must be specified for 'fill_mean' method.")) && rows[..] == old(rows[..])
    ensures methodName == "fill_mean" && column != "" ==>
      rows[..] == MeanFilled(old(rows[..]), column) && r == Ok(rows[..])
    ensures methodName != "remove_rows" && methodName != "fill_mean" ==>
      r == Raise(ValueError("Unknown missing value method: " + methodName)) && rows[..] == old(rows[..])
  {
    if methodName == "remove_rows" {
      return Ok(WithoutBlankRows(rows[..]));
    } else if methodName == "fill_mean" {
      if column == "" {
        return Raise(ValueError("Column must be specified for 'fill_mean' method."));
      }
      var existing := NumericColumn(rows[..], column);
      if existing == [] {
        return Ok(rows[..]);
      }
      var meanVal := Mean(existing);
      FillColumn(rows, column, meanVal);
      return Ok(rows[..]);
    } else {
      return Raise(ValueError("Unknown missing value method: " + methodName));
    }
  }

  /** Filling touches only missing `column` cells: afterwards every row has
      the column, no cell of it is missing, the missing ones hold `fill`,
      and every other cell is as before. */
  lemma FilledFrame(ds: Dataset, column: string, fill: real, i: nat)
    requires i < |ds|
    ensures var r := Filled(ds, column, fill);
      r[i].Keys == ds[i].Keys + {column} &&
      !IsBlank(r[i][column]) &&
      (IsBlank(Get(ds[i], column, Null)) ==> r[i][column] == Num(fill)) &&
      (!IsBlank(Get(ds[i], column, Null)) ==> r[i] == ds[i]) &&
      (forall k | k in ds[i] && k != column :: r[i][k] == ds[i][k])
  {
  }

  /** A dataset without missing `column` cells is left as it is. */
  lemma FilledClean(ds: Dataset, column: string, fill: real)
    requires forall i | 0 <= i < |ds| :: !IsBlank(Get(ds[i], column, Null))
    ensures Filled(ds, column, fill) == ds
  {
  }

  /** The number of rows whose `column` cell is missing. */
  function BlankCount(ds: Dataset, column: string): (n: nat)
    ensures n <= |ds|
  {
    if ds == [] then 0
    else BlankCount(ds[..|ds| - 1], column) + (if IsBlank(Get(ds[|ds| - 1], column, Null)) then 1 else 0)
  }

  lemma FilledSnoc(ds: Dataset, row: Row, column: string, fill: real)
    ensures Filled(ds + [row], column, fill) == Filled(ds, column, fill) + [FilledRow(row, column, fill)]
  {
  }

  /** After filling, the column's numbers are the old ones plus one `fill`
      per missing cell: so many more, adding up to that much more. */
  lemma {:induction false} FilledColumnSum(ds: Dataset, column: string, fill: real)
    ensures |NumericColumn(Filled(ds, column, fill), column)| == |NumericColumn(ds, column)| + BlankCount(ds, column)
    ensures Sum(NumericColumn(Filled(ds, column, fill), column))
         == Sum(NumericColumn(ds, column)) + Times(BlankCount(ds, column) as real, fill)
  {
    if ds == [] {
      TimesZero(fill);
    } else {
      var init := ds[..|ds| - 1];
      var last := ds[|ds| - 1];
      assert ds == init + [last];
      FilledColumnSum(init, column, fill);
      FilledColumnSnoc(init, last, column, fill);
      var before := NumericColumn(Filled(init, column, fill), column);
      if IsBlank(Get(last, column, Null)) {
        SumAppend(before, [fill]);
        assert NumericColumn(ds, column) == NumericColumn(init, column);
        TimesSucc(BlankCount(init, column) as real, fill);
      } else {
        SumAppend(before, NumericCell(last, column));
        SumAppend(NumericColumn(init, column), NumericCell(last, column));
      }
    }
  }

  /** Filling one more row adds `fill` to the column's numbers when its cell
      is missing, and the row's own number otherwise. */
  lemma FilledColumnSnoc(ds: Dataset, row: Row, column: string, fill: real)
    ensures NumericColumn(Filled(ds + [row], column, fill), column)
         == NumericColumn(Filled(ds, column, fill), column)
            + (if IsBlank(Get(row, column, Null)) then [fill] else NumericCell(row, column))
    ensures NumericColumn(ds + [row], column) == NumericColumn(ds, column) + NumericCell(row, column)
    ensures IsBlank(Get(row, column, Null)) ==> NumericCell(row, column) == []
    ensures BlankCount(ds + [row], column) == BlankCount(ds, column) + if IsBlank(Get(row, column, Null)) then 1 else 0
  {
    FilledSnoc(ds, row, column, fill);
    NumericColumnSnoc(Filled(ds, column, fill), FilledRow(row, column, fill), column);
    NumericColumnSnoc(ds, row, column);
    assert (ds + [row])[..|ds|] == ds;
  }

  /** Filling with the mean keeps the mean of the column's numbers. */
  lemma MeanFilledKeepsMean(ds: Dataset, column: string)
    requires NumericColumn(ds, column) != []
    ensures Mean(NumericColumn(MeanFilled(ds, column), column)) == Mean(NumericColumn(ds, column))
  {
    var values := NumericColumn(ds, column);
    var m := Mean(values);
    var n := |values| as real;
    var k := BlankCount(ds, column) as real;
    var filled := NumericColumn(Filled(ds, column, m), column);
    assert MeanFilled(ds, column) == Filled(ds, column, m);
    FilledColumnSum(ds, column, m);
    QuotientTimes(Sum(values), n);
    TimesAdd(n, k, m);
    assert Sum(filled) == Times(n + k, m);
    assert |filled| as real == n + k;
    CancelFactor(n + k, m);
    assert Mean(filled) == Times(n + k, m) / (n + k);
  }

  /** The value `fill_mean` writes lies between the column's smallest and
      largest number, and no missing cell of the column remains. */
  lemma MeanFilledCells(ds: Dataset, column: string)
    requires NumericColumn(ds, column) != []
    ensures var values := NumericColumn(ds, column);
      var r := MeanFilled(ds, column);
      |r| == |ds| &&
      forall i | 0 <= i < |ds| ::
        column in r[i] && !IsBlank(r[i][column]) &&
        (IsBlank(Get(ds[i], column, Null)) ==>
          r[i][column].Num? && Min(values) <= r[i][column].x <= Max(values))
  {
    var values := NumericColumn(ds, column);
    forall i | 0 <= i < |ds| {
      FilledFrame(ds, column, Mean(values), i);
    }
  }

  /** A second `fill_mean` on the same column changes nothing. */
  lemma MeanFilledIdempotent(ds: Dataset, column: string)
    ensures MeanFilled(MeanFilled(ds, column), column) == MeanFilled(ds, column)
  {
    var values := NumericColumn(ds, column);
    if values != [] {
      var r := Filled(ds, column, Mean(values));
      FilledColumnSum(ds, column, Mean(values));
      forall i | 0 <= i < |r| ensures !IsBlank(Get(r[i], column, Null)) {
        FilledFrame(ds, column, Mean(values), i);
      }
      FilledClean(r, column, Mean(NumericColumn(r, column)));
    }
  }
}
