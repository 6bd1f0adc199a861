/** Python's `sorted`: a stable sort by a total preorder, and the ordering of
    cell values that `sorted(set(...))` uses on a column. */
module Ordering {
  import opened Data
  import opened Tally

  ghost predicate TotalPreorder<T(!new)>(le: (T, T) -> bool) {
    && (forall a, b :: le(a, b) || le(b, a))
    && (forall a, b, c :: le(a, b) && le(b, c) ==> le(a, c))
  }

  predicate SortedBy<T>(s: seq<T>, le: (T, T) -> bool) {
    forall i, j | 0 <= i < j < |s| :: le(s[i], s[j])
  }

  /** Puts x in front of the first element it is not greater than, so equal
      elements keep their relative order. */
  function Insert<T(!new)>(x: T, s: seq<T>, le: (T, T) -> bool): (r: seq<T>)
    requires TotalPreorder(le)
    requires SortedBy(s, le)
    ensures SortedBy(r, le)
    ensures multiset(r) == multiset(s) + multiset{x}
    ensures |r| == |s| + 1
  {
    if s == [] then [x]
    else if le(x, s[0]) then
      assert forall j | 0 < j < |s| :: le(x, s[j]) by {
        forall j | 0 < j < |s| ensures le(x, s[j]) { assert le(s[0], s[j]); }
      }
      [x] + s
    else
      var tail := Insert(x, s[1..], le);
      HeadBeforeInserted(x, s, tail, le);
      assert s == [s[0]] + s[1..];
      [s[0]] + tail
  }

  /** When x goes after the head of s, the head still comes first. */
  lemma HeadBeforeInserted<T(!new)>(x: T, s: seq<T>, tail: seq<T>, le: (T, T) -> bool)
    requires TotalPreorder(le)
    requires s != [] && SortedBy(s, le) && !le(x, s[0])
    requires SortedBy(tail, le) && multiset(tail) == multiset(s[1..]) + multiset{x}
    ensures SortedBy([s[0]] + tail, le)
  {
    assert le(s[0], x);
    forall y | y in multiset(tail) ensures le(s[0], y) {
      assert y == x || y in multiset(s[1..]);
      if y != x {
        var j :| 0 <= j < |s[1..]| && s[1..][j] == y;
        assert s[j + 1] == y;
      }
    }
    forall j | 0 <= j < |tail| ensures le(s[0], tail[j]) { assert tail[j] in multiset(tail); }
  }

  /** `sorted(s, key=...)`: insertion sort, stable like Python's. */
  function SortBy<T(!new)>(s: seq<T>, le: (T, T) -> bool): (r: seq<T>)
    requires TotalPreorder(le)
    ensures SortedBy(r, le)
    ensures multiset(r) == multiset(s)
    ensures |r| == |s|
  {
    if s == [] then []
    else
      assert s == [s[0]] + s[1..];
      Insert(s[0], SortBy(s[1..], le), le)
  }

  /** Lexicographic order on text by code point, as Python compares `str`. */
  predicate TextLe(a: string, b: string) {
    if a == [] then true
    else if b == [] then false
    else if a[0] != b[0] then a[0] < b[0]
    else TextLe(a[1..], b[1..])
  }

  lemma {:induction false} TextLeTotal(a: string, b: string)
    ensures TextLe(a, b) || TextLe(b, a)
  {
    if a != [] && b != [] && a[0] == b[0] {
      TextLeTotal(a[1..], b[1..]);
    }
  }

  lemma {:induction false} TextLeTransitive(a: string, b: string, c: string)
    requires TextLe(a, b) && TextLe(b, c)
    ensures TextLe(a, c)
  {
    if a != [] && b != [] && c != [] && a[0] == b[0] && b[0] == c[0] {
      TextLeTransitive(a[1..], b[1..], c[1..]);
    }
  }

  /** Which cells Python can compare with each other: numbers with numbers,
      text (including labels) with text; None with nothing. */
  function Kind(v: Value): nat {
    match v
    case Num(_) => 0
    case Null => 1
    case _ => 2
  }

  /** A total preorder on values that agrees with Python's `<` on numbers and
      on plain text. Labels are ordered by their fields. */
  predicate ValueLe(a: Value, b: Value) {
    if Tag(a) != Tag(b) then Tag(a) < Tag(b)
    else match a
      case Num(x) => x <= b.x
      case Str(s) => TextLe(s, b.s)
      case Null => true
      case Interval(lo, hi) => lo < b.lo || (lo == b.lo && hi <= b.hi)
      case BinLabel(n, lo, hi) =>
        n < b.bin || (n == b.bin && (lo < b.lo || (lo == b.lo && hi <= b.hi)))
      case PointBin(x) => x <= b.at
  }

  function Tag(v: Value): nat {
    match v
    case Num(_) => 0
    case Null => 1
    case Str(_) => 2
    case Interval(_, _) => 3
    case BinLabel(_, _, _) => 4
    case PointBin(_) => 5
  }

  lemma ValueLeIsTotalPreorder()
    ensures TotalPreorder(ValueLe)
  {
    forall a, b ensures ValueLe(a, b) || ValueLe(b, a) {
      if a.Str? && b.Str? { TextLeTotal(a.s, b.s); }
    }
    forall a, b, c | ValueLe(a, b) && ValueLe(b, c) ensures ValueLe(a, c) {
      if a.Str? && b.Str? && c.Str? { TextLeTransitive(a.s, b.s, c.s); }
    }
  }

  /** `sorted(set(vs))`: the distinct values in ascending order, or TypeError
      when two of them cannot be compared. */
  function SortedDistinct(vs: seq<Value>): (r: Outcome<seq<Value>>)
    ensures r.Raise? <==> exists i, j | 0 <= i < |vs| && 0 <= j < |vs| :: vs[i] != vs[j] && Kind(vs[i]) != Kind(vs[j])
    ensures r.Raise? ==> r.error == TypeError
    ensures r.Ok? ==> SortedBy(r.value, ValueLe) && NoDuplicates(r.value)
    ensures r.Ok? ==> forall v | v in r.value :: v in vs
    ensures r.Ok? ==> forall v | v in vs :: v in r.value
  {
    if exists i, j | 0 <= i < |vs| && 0 <= j < |vs| :: vs[i] != vs[j] && Kind(vs[i]) != Kind(vs[j]) then
      Raise(TypeError)
    else
      var d := Distinct(vs);
      ValueLeIsTotalPreorder();
      var sorted := SortBy(d, ValueLe);
      PermutationKeepsDistinct(d, sorted);
      Ok(sorted)
  }

  /** A reordering of a duplicate-free list has the same elements and no duplicates. */
  lemma PermutationKeepsDistinct<T>(d: seq<T>, p: seq<T>)
    requires NoDuplicates(d)
    requires multiset(p) == multiset(d)
    ensures NoDuplicates(p)
    ensures forall v | v in p :: v in d
    ensures forall v | v in d :: v in p
  {
    forall v | v in p ensures v in d { assert v in multiset(p); }
    forall v | v in d ensures v in p { assert v in multiset(d); }
    forall i, j | 0 <= i < j < |p| ensures p[i] != p[j] {
      if p[i] == p[j] {
        assert p == p[..j] + [p[j]] + p[j + 1..];
        assert p[i] in p[..j];
        assert multiset(p)[p[j]] >= 2;
        DistinctMultiplicity(d, p[j]);
      }
    }
  }

  lemma {:induction false} DistinctMultiplicity<T>(d: seq<T>, v: T)
    requires NoDuplicates(d)
    ensures multiset(d)[v] <= 1
  {
    if d != [] {
      var init := d[..|d| - 1];
      assert d == init + [d[|d| - 1]];
      DistinctMultiplicity(init, v);
      assert d[|d| - 1] !in init;
    }
  }
}
