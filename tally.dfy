/** Python's `collections.Counter` over a list, with its iteration order:
    keys in order of first occurrence. `Counter(s).most_common(1)[0][0]` and
    `max(d, key=d.get)` both return the first key, in that order, whose count
    is maximal. */
module Tally {
  import opened Sums

  /** How many times x occurs in s. */
  function Count<T(==)>(s: seq<T>, x: T): (n: nat)
    ensures n <= |s|
    ensures n == 0 <==> x !in s
  {
    if s == [] then 0
    else
      assert s == s[..|s| - 1] + [s[|s| - 1]];
      Count(s[..|s| - 1], x) + (if s[|s| - 1] == x then 1 else 0)
  }

  predicate NoDuplicates<T(==)>(s: seq<T>) {
    forall i, j | 0 <= i < j < |s| :: s[i] != s[j]
  }

  /** The distinct elements of s in order of first occurrence: the keys of
      `Counter(s)`, or of a dict filled by walking s. */
  function Distinct<T(==)>(s: seq<T>): (d: seq<T>)
    ensures NoDuplicates(d)
    ensures forall x | x in d :: x in s
    ensures forall x | x in s :: x in d
    ensures |d| <= |s|
  {
    if s == [] then []
    else
      assert s == s[..|s| - 1] + [s[|s| - 1]];
      var d' := Distinct(s[..|s| - 1]);
      if s[|s| - 1] in d' then d' else d' + [s[|s| - 1]]
  }

  /** The counts of `keys` in s, in key order: `Counter(s).values()` when
      keys is Distinct(s). */
  function Counts<T(==)>(s: seq<T>, keys: seq<T>): (c: seq<int>)
    ensures |c| == |keys|
    ensures forall i | 0 <= i < |keys| :: c[i] == Count(s, keys[i])
  {
    seq(|keys|, i requires 0 <= i < |keys| => Count(s, keys[i]) as int)
  }

  lemma {:induction false} CountAppend<T>(a: seq<T>, b: seq<T>, x: T)
    ensures Count(a + b, x) == Count(a, x) + Count(b, x)
  {
    if b != [] {
      assert (a + b)[..|a + b| - 1] == a + b[..|b| - 1];
      CountAppend(a, b[..|b| - 1], x);
    } else {
      assert a + b == a;
    }
  }

  /** An element occurs exactly once in a list without duplicates. */
  lemma {:induction false} CountNoDuplicates<T>(s: seq<T>, x: T)
    requires NoDuplicates(s)
    ensures Count(s, x) == if x in s then 1 else 0
  {
    if s != [] {
      var init := s[..|s| - 1];
      assert s == init + [s[|s| - 1]];
      assert NoDuplicates(init);
      CountNoDuplicates(init, x);
    }
  }

  /** Appending one element to s adds, to the sum of counts over keys, the
      number of times that element occurs among the keys. */
  lemma {:induction false} SumCountsSnoc<T>(s: seq<T>, x: T, keys: seq<T>)
    ensures SumInt(Counts(s + [x], keys)) == SumInt(Counts(s, keys)) + Count(keys, x)
  {
    if keys != [] {
      var init := keys[..|keys| - 1];
      var k := keys[|keys| - 1];
      assert Counts(s + [x], keys) == Counts(s + [x], init) + [Count(s + [x], k)];
      assert Counts(s, keys) == Counts(s, init) + [Count(s, k)];
      SumIntAppend(Counts(s + [x], init), [Count(s + [x], k)]);
      SumIntAppend(Counts(s, init), [Count(s, k)]);
      SumCountsSnoc(s, x, init);
      CountAppend(s, [x], k);
      assert (s + [x])[..|s + [x]| - 1] == s;
    }
  }

  /** Counting every element of s against a duplicate-free list of keys that
      covers s accounts for every element exactly once. */
  lemma {:induction false} SumCounts<T>(s: seq<T>, keys: seq<T>)
    requires NoDuplicates(keys)
    requires forall x | x in s :: x in keys
    ensures SumInt(Counts(s, keys)) == |s|
  {
    if s == [] {
      if keys != [] {
        var init := keys[..|keys| - 1];
        assert Counts(s, keys) == Counts(s, init) + [0];
        assert NoDuplicates(init);
        SumCounts(s, init);
        SumIntAppend(Counts(s, init), [0]);
      }
    } else {
      var init := s[..|s| - 1];
      assert s == init + [s[|s| - 1]];
      SumCounts(init, keys);
      SumCountsSnoc(init, s[|s| - 1], keys);
      CountNoDuplicates(keys, s[|s| - 1]);
    }
  }

  /** `Counter(s).values()` sums to len(s). */
  lemma CounterTotal<T>(s: seq<T>)
    ensures SumInt(Counts(s, Distinct(s))) == |s|
  {
    SumCounts(s, Distinct(s));
  }

  /** The index of the first maximal score: `max` over keys in order, which
      keeps the earliest of equal maxima. */
  function FirstMax(scores: seq<real>): (i: nat)
    requires |scores| > 0
    ensures i < |scores|
    ensures forall j | 0 <= j < |scores| :: scores[j] <= scores[i]
    ensures forall j | 0 <= j < i :: scores[j] < scores[i]
  {
    if |scores| == 1 then 0
    else
      var i' := FirstMax(scores[..|scores| - 1]);
      assert forall j | 0 <= j < |scores| - 1 :: scores[..|scores| - 1][j] == scores[j];
      if scores[|scores| - 1] > scores[i'] then |scores| - 1 else i'
  }

  /** Counts as scores. */
  function CountScores<T(==)>(s: seq<T>, keys: seq<T>): (c: seq<real>)
    ensures |c| == |keys|
    ensures forall i | 0 <= i < |keys| :: c[i] == Count(s, keys[i]) as real
  {
    seq(|keys|, i requires 0 <= i < |keys| => Count(s, keys[i]) as real)
  }

  /** `Counter(s).most_common(1)[0][0]`: the first value, in order of first
      occurrence, among those occurring most often. */
  function MostCommon<T(==)>(s: seq<T>): (r: T)
    requires |s| > 0
    ensures r in s
    ensures forall x | x in s :: Count(s, x) <= Count(s, r)
    ensures exists i | 0 <= i < |Distinct(s)| ::
      Distinct(s)[i] == r && forall j | 0 <= j < i :: Count(s, Distinct(s)[j]) < Count(s, r)
  {
    var d := Distinct(s);
    assert s[0] in d;
    var i := FirstMax(CountScores(s, d));
    forall x | x in s ensures Count(s, x) <= Count(s, d[i]) {
      var j :| 0 <= j < |d| && d[j] == x;
      assert CountScores(s, d)[j] <= CountScores(s, d)[i];
    }
    assert forall j | 0 <= j < i :: CountScores(s, d)[j] < CountScores(s, d)[i];
    d[i]
  }
}
