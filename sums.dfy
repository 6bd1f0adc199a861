/** Sums, minima and maxima of number lists: Python's `sum`, `min` and `max`
    on lists of floats, with floats taken as exact reals. */
module Sums {
  import opened Arith

  /** `sum(s)`, accumulated left to right. */
  function Sum(s: seq<real>): real {
    if s == [] then 0.0 else Sum(s[..|s| - 1]) + s[|s| - 1]
  }

  /** `sum(s)` of a list of counts. */
  function SumInt(s: seq<int>): int {
    if s == [] then 0 else SumInt(s[..|s| - 1]) + s[|s| - 1]
  }

  /** `sum((x - m) ** 2 for x in s)`: the sum of squared deviations from m. */
  function SumSquares(s: seq<real>, m: real): real {
    if s == [] then 0.0 else SumSquares(s[..|s| - 1], m) + Square(s[|s| - 1] - m)
  }

  /** `sum((x - ma) * (y - mb) for x, y in zip(a, b))` on lists of equal
      length: the sum of products of deviations from the two means. */
  function SumDevProducts(a: seq<real>, b: seq<real>, ma: real, mb: real): real
    requires |a| == |b|
  {
    if a == [] then 0.0
    else SumDevProducts(a[..|a| - 1], b[..|b| - 1], ma, mb) + Times(a[|a| - 1] - ma, b[|b| - 1] - mb)
  }

  /** `min(s)` */
  function Min(s: seq<real>): (m: real)
    requires |s| > 0
    ensures m in s
    ensures forall x | x in s :: m <= x
  {
    if |s| == 1 then s[0]
    else
      var init := s[..|s| - 1];
      var m' := Min(init);
      assert s == init + [s[|s| - 1]];
      assert forall x | x in s :: x in init || x == s[|s| - 1];
      if s[|s| - 1] < m' then s[|s| - 1] else m'
  }

  /** `max(s)` */
  function Max(s: seq<real>): (m: real)
    requires |s| > 0
    ensures m in s
    ensures forall x | x in s :: x <= m
  {
    if |s| == 1 then s[0]
    else
      var init := s[..|s| - 1];
      var m' := Max(init);
      assert s == init + [s[|s| - 1]];
      assert forall x | x in s :: x in init || x == s[|s| - 1];
      if s[|s| - 1] > m' then s[|s| - 1] else m'
  }

  lemma {:induction false} SumAppend(a: seq<real>, b: seq<real>)
    ensures Sum(a + b) == Sum(a) + Sum(b)
  {
    if b != [] {
      assert (a + b)[..|a + b| - 1] == a + b[..|b| - 1];
      SumAppend(a, b[..|b| - 1]);
    } else {
      assert a + b == a;
    }
  }

  lemma {:induction false} SumIntAppend(a: seq<int>, b: seq<int>)
    ensures SumInt(a + b) == SumInt(a) + SumInt(b)
  {
    if b != [] {
      assert (a + b)[..|a + b| - 1] == a + b[..|b| - 1];
      SumIntAppend(a, b[..|b| - 1]);
    } else {
      assert a + b == a;
    }
  }

  /** A sum of n terms each at least lo (at most hi) is at least n*lo (at most n*hi). */
  lemma {:induction false} SumBounds(s: seq<real>, lo: real, hi: real)
    requires forall x | x in s :: lo <= x <= hi
    ensures Times(|s| as real, lo) <= Sum(s) <= Times(|s| as real, hi)
  {
    if s != [] {
      var init := s[..|s| - 1];
      assert s == init + [s[|s| - 1]];
      assert forall x | x in init :: x in s;
      assert s[|s| - 1] in s;
      SumBounds(init, lo, hi);
      TimesSucc(|init| as real, lo);
      TimesSucc(|init| as real, hi);
    }
  }

  /** A sum of non-negative terms is non-negative, and zero exactly when
      every term is. */
  lemma {:induction false} SumNonNegative(s: seq<real>)
    requires forall i | 0 <= i < |s| :: s[i] >= 0.0
    ensures Sum(s) >= 0.0
    ensures Sum(s) == 0.0 <==> forall i | 0 <= i < |s| :: s[i] == 0.0
  {
    if s != [] {
      var init := s[..|s| - 1];
      assert forall i | 0 <= i < |init| :: init[i] == s[i];
      SumNonNegative(init);
    }
  }
}
