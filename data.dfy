/** Cells, rows and datasets as the data-mining backend handles them.

    A dataset is the list of dictionaries built from a CSV file: every cell
    that parses as a number is a float, every other cell keeps its text.
    The backend also writes labels back into cells (interval labels from
    tree preprocessing, and bin labels from equal-width binning);
    they are strings in Python and structured values here. */
module Data {

  datatype Value =
    | Num(x: real)                              // a Python float
    | Str(s: string)                            // any other text
    | Null                                      // Python None (a short CSV line)
    | Interval(lo: real, hi: real)              // the text "[lo-hi]"
    | BinLabel(bin: nat, lo: real, hi: real)    // the text "Bin bin: [lo - hi]"
    | PointBin(at: real)                        // the text "Bin 1: (at)"

  type Row = map<string, Value>
  type Dataset = seq<Row>

  /** The Python exceptions the core can raise. */
  datatype Exception =
    | ValueError(message: string)
    | KeyError
    | IndexError
    | TypeError
    | ZeroDivisionError
    | AttributeError(name: string)

  /** A call either returns a value or raises. */
  datatype Outcome<+T> = Ok(value: T) | Raise(error: Exception)

  datatype Option<+T> = None | Some(value: T)

  /** The transcendental functions of Python's `math` module that the core
      calls; they are supplied by the caller, exactly as the core would call
      them. `gaussian(x, mean, std)` is the normal density for std != 0. */
  datatype Maths = Maths(
    log2: real -> real,
    ln: real -> real,
    log10: real -> real,
    sqrt: real -> real,
    gaussian: (real, real, real) -> real)

  /** `isinstance(row.get(column), (int, float))` */
  predicate IsNumberAt(row: Row, column: string) {
    column in row && row[column].Num?
  }

  /** `row.get(key, default)` */
  function Get(row: Row, key: string, default: Value): Value {
    if key in row then row[key] else default
  }

  /** Every row has `column`: true of every dataset the CSV loader builds,
      whose rows all carry every header column. */
  predicate HasColumn(ds: Dataset, column: string) {
    forall i | 0 <= i < |ds| :: column in ds[i]
  }

  /** Every attribute is a column of every row. */
  predicate HasColumns(ds: Dataset, attrs: seq<string>) {
    forall a | a in attrs :: HasColumn(ds, a)
  }

  /** `[row[column] for row in ds]` */
  function Column(ds: Dataset, column: string): (r: seq<Value>)
    requires HasColumn(ds, column)
    ensures |r| == |ds|
    ensures forall i | 0 <= i < |ds| :: r[i] == ds[i][column]
  {
    seq(|ds|, i requires 0 <= i < |ds| => ds[i][column])
  }

  /** `[row[column] for row in ds if isinstance(row.get(column), (int, float))]`,
      the numeric cells of a column in row order. */
  function NumericColumn(ds: Dataset, column: string): (vs: seq<real>)
    ensures |vs| <= |ds|
  {
    if ds == [] then []
    else NumericColumn(ds[..|ds| - 1], column) + NumericCell(ds[|ds| - 1], column)
  }

  /** The numeric cell of one row, as a list of zero or one number. */
  function NumericCell(row: Row, column: string): seq<real> {
    if IsNumberAt(row, column) then [row[column].x] else []
  }

  lemma NumericColumnSnoc(ds: Dataset, row: Row, column: string)
    ensures NumericColumn(ds + [row], column) == NumericColumn(ds, column) + NumericCell(row, column)
  {
    assert (ds + [row])[..|ds|] == ds;
  }

  /** The numeric cell of every row is among the column's numbers. */
  lemma {:induction false} NumericCellIn(ds: Dataset, column: string, i: nat)
    requires i < |ds| && IsNumberAt(ds[i], column)
    ensures ds[i][column].x in NumericColumn(ds, column)
  {
    var init := ds[..|ds| - 1];
    if i < |init| {
      assert init[i] == ds[i];
      NumericCellIn(init, column, i);
    }
  }

  /** Every number of the column is the numeric cell of some row. */
  lemma {:induction false} NumericColumnFrom(ds: Dataset, column: string, v: real)
    requires v in NumericColumn(ds, column)
    ensures exists i | 0 <= i < |ds| :: IsNumberAt(ds[i], column) && ds[i][column].x == v
  {
    var init := ds[..|ds| - 1];
    if v in NumericColumn(init, column) {
      NumericColumnFrom(init, column, v);
      var i :| 0 <= i < |init| && IsNumberAt(init[i], column) && init[i][column].x == v;
      assert ds[i] == init[i];
    } else {
      assert IsNumberAt(ds[|ds| - 1], column);
    }
  }

  /** A column has no numbers exactly when no row holds a number there. */
  lemma {:induction false} NumericColumnEmpty(ds: Dataset, column: string)
    ensures NumericColumn(ds, column) == [] <==> forall i | 0 <= i < |ds| :: !IsNumberAt(ds[i], column)
  {
    if ds != [] {
      var init := ds[..|ds| - 1];
      NumericColumnEmpty(init, column);
      assert forall i | 0 <= i < |init| :: init[i] == ds[i];
    }
  }

  /** Characters that Python's `str.strip()` removes. */
  predicate IsSpace(c: char) {
    c == ' ' || ('\t' <= c <= '\r') || ('\U{1C}' <= c <= '\U{1F}')
    || c == '\U{85}' || c == '\U{A0}' || c == '\U{1680}' || ('\U{2000}' <= c <= '\U{200A}')
    || c == '\U{2028}' || c == '\U{2029}' || c == '\U{202F}' || c == '\U{205F}' || c == '\U{3000}'
  }

  /** `str(v).strip() == '' or v is None`: an empty or all-blank text cell, or None.
      Numbers and labels always print as non-blank text. */
  predicate IsBlank(v: Value) {
    v.Null? || (v.Str? && forall k | 0 <= k < |v.s| :: IsSpace(v.s[k]))
  }

  /** Python's truncating `int(x)` of a float. */
  function Trunc(x: real): (r: int)
    ensures x >= 0.0 ==> r == x.Floor
    ensures r as real <= x < r as real + 1.0 || r as real - 1.0 < x <= r as real
  {
    if x >= 0.0 then x.Floor else -((-x).Floor)
  }

  /** `math.ceil(x)` */
  function Ceil(x: real): (r: int)
    ensures x <= r as real < x + 1.0
  {
    -((-x).Floor)
  }

  /** `10 ** k` for an integer k, a float when k is negative. */
  function Pow10(k: int): (p: real)
    ensures p > 0.0
    decreases if k < 0 then -k else k
  {
    if k == 0 then 1.0
    else if k > 0 then 10.0 * Pow10(k - 1)
    else Pow10(k + 1) / 10.0
  }

  /** End index of the Python slice `s[:k]` of a list of length n. */
  function SliceEnd(n: nat, k: int): (e: nat)
    ensures e <= n
    ensures 0 <= k ==> e == if k < n then k else n
    ensures k < 0 ==> e == if n + k > 0 then n + k else 0
  {
    if k >= 0 then (if k < n then k else n)
    else if n + k > 0 then n + k else 0
  }
}
