/** Products and squares of reals. Every fact about a product is proved in a
    lemma of its own and stated through `Times` and `Square`, so that the
    lemmas that use it reason about these terms linearly. */
module Arith {

  /** `a * b` */
  function Times(a: real, b: real): real { a * b }

  /** `x ** 2` */
  function Square(x: real): real { Times(x, x) }

  lemma PositiveProduct(a: real, b: real)
    requires a > 0.0 && b > 0.0
    ensures Times(a, b) > 0.0
  {
  }

  lemma NonNegativeProduct(a: real, b: real)
    requires a >= 0.0 && b >= 0.0
    ensures Times(a, b) >= 0.0
  {
  }

  lemma SquareOfNegation(d: real)
    ensures Square(-d) == Square(d)
  {
  }

  /** A square is never negative, and is 0 only for 0. */
  lemma SquareNonNegative(d: real)
    ensures Square(d) >= 0.0
    ensures d != 0.0 ==> Square(d) > 0.0
    ensures d == 0.0 ==> Square(d) == 0.0
  {
    if d > 0.0 {
      PositiveProduct(d, d);
    } else if d < 0.0 {
      PositiveProduct(-d, -d);
      SquareOfNegation(d);
    }
  }

  /** Multiplying by w >= 0 keeps u <= v. */
  lemma MonotoneProduct(u: real, v: real, w: real)
    requires u <= v && w >= 0.0
    ensures Times(u, w) <= Times(v, w)
  {
    NonNegativeProduct(v - u, w);
  }

  /** A positive factor can be cancelled from both sides of <=. */
  lemma CancelLe(n: real, a: real, b: real)
    requires n > 0.0 && Times(n, a) <= Times(n, b)
    ensures a <= b
  {
    if a > b {
      PositiveProduct(n, a - b);
    }
  }

  lemma SquareStrict(p: real, q: real)
    requires 0.0 <= p < q
    ensures Square(p) < Square(q)
  {
    PositiveProduct(q - p, q + p);
  }

  /** p >= 0 and q^2 <= p^2 give q <= p. */
  lemma SquareRootMonotone(q: real, p: real)
    requires p >= 0.0 && Square(q) <= Square(p)
    ensures q <= p
  {
    if q > p { SquareStrict(p, q); }
  }

  /** n*lo <= t <= n*hi with n > 0 puts t / n between lo and hi. */
  lemma QuotientBetween(t: real, n: real, lo: real, hi: real)
    requires n > 0.0 && Times(n, lo) <= t <= Times(n, hi)
    ensures lo <= t / n <= hi
  {
    var q := t / n;
    assert t == Times(n, q);
    CancelLe(n, lo, q);
    CancelLe(n, q, hi);
  }

  /** r^2 <= p*q with p, q >= 0 gives 2r <= p + q. */
  lemma TwoTermBound(p: real, q: real, r: real)
    requires p >= 0.0 && q >= 0.0 && Square(r) <= Times(p, q)
    ensures 2.0 * r <= p + q
  {
    assert Square(p + q) == Square(p - q) + 4.0 * Times(p, q);
    SquareNonNegative(p - q);
    assert Square(2.0 * r) == 4.0 * Square(r);
    SquareRootMonotone(2.0 * r, p + q);
  }

  lemma CrossIdentities(A: real, B: real, C: real, x: real, y: real)
    ensures Times(Times(A, Square(y)), Times(B, Square(x))) == Times(Times(A, B), Square(Times(x, y)))
    ensures Square(Times(C, Times(x, y))) == Times(Square(C), Square(Times(x, y)))
  {
  }

  /** From A, B >= 0 and C^2 <= A*B: 2*C*x*y <= A*y^2 + B*x^2. */
  lemma CrossTermBound(A: real, B: real, C: real, x: real, y: real)
    requires A >= 0.0 && B >= 0.0 && Square(C) <= Times(A, B)
    ensures 2.0 * Times(C, Times(x, y)) <= Times(A, Square(y)) + Times(B, Square(x))
  {
    CrossIdentities(A, B, C, x, y);
    SquareNonNegative(Times(x, y));
    MonotoneProduct(Square(C), Times(A, B), Square(Times(x, y)));
    SquareNonNegative(x);
    SquareNonNegative(y);
    NonNegativeProduct(A, Square(y));
    NonNegativeProduct(B, Square(x));
    TwoTermBound(Times(A, Square(y)), Times(B, Square(x)), Times(C, Times(x, y)));
  }

  lemma StepIdentities(A: real, B: real, C: real, x: real, y: real)
    ensures Square(C + Times(x, y)) == Square(C) + 2.0 * Times(C, Times(x, y)) + Square(Times(x, y))
    ensures Times(A + Square(x), B + Square(y))
      == Times(A, B) + Times(A, Square(y)) + Times(B, Square(x)) + Square(Times(x, y))
  {
  }

  /** The inductive step of the Cauchy-Schwarz inequality: one more pair
      (x, y) keeps C^2 <= A*B. */
  lemma CauchySchwarzStep(A: real, B: real, C: real, x: real, y: real)
    requires A >= 0.0 && B >= 0.0 && Square(C) <= Times(A, B)
    ensures Square(C + Times(x, y)) <= Times(A + Square(x), B + Square(y))
  {
    CrossTermBound(A, B, C, x, y);
    StepIdentities(A, B, C, x, y);
  }

  /** Dividing S, U and V by k > 0 keeps S^2 <= U*V. */
  lemma ScaledProductBound(S: real, U: real, V: real, k: real)
    requires k > 0.0 && Square(S) <= Times(U, V)
    ensures Square(S / k) <= Times(U / k, V / k)
  {
    var c, u, v := S / k, U / k, V / k;
    assert Square(S) == Times(Square(k), Square(c));
    assert Times(U, V) == Times(Square(k), Times(u, v));
    PositiveProduct(k, k);
    CancelLe(Square(k), Square(c), Times(u, v));
  }

  /** c^2 <= (a*b)^2 with a, b > 0 gives -1 <= c / (a*b) <= 1. */
  lemma RatioBounded(c: real, a: real, b: real)
    requires a > 0.0 && b > 0.0
    requires Square(c) <= Times(Square(a), Square(b))
    ensures -1.0 <= c / Times(a, b) <= 1.0
  {
    var p := Times(a, b);
    PositiveProduct(a, b);
    assert Times(Square(a), Square(b)) == Square(p);
    SquareRootMonotone(c, p);
    SquareOfNegation(c);
    SquareRootMonotone(-c, p);
    QuotientBetween(c, p, -1.0, 1.0);
  }
  /** n * (t / n) == t for n != 0. */
  lemma QuotientTimes(t: real, n: real)
    requires n != 0.0
    ensures Times(n, t / n) == t
  {
  }

  lemma QuotientSum(a: real, b: real, d: real)
    requires d != 0.0
    ensures a / d + b / d == (a + b) / d
  {
  }

  /** Dividing by r > 0 keeps a <= b (a < b). */
  lemma QuotientMonotone(a: real, b: real, r: real)
    requires a <= b && r > 0.0
    ensures a / r <= b / r
    ensures a < b ==> a / r < b / r
  {
    QuotientTimes(a, r);
    QuotientTimes(b, r);
    if b / r < a / r {
      PositiveProduct(r, a / r - b / r);
    }
  }

  lemma TimesStrict(a: real, b: real, w: real)
    requires a < b && w > 0.0
    ensures Times(a, w) < Times(b, w)
  {
    PositiveProduct(b - a, w);
  }

  lemma TimesSucc(n: real, m: real)
    ensures Times(n + 1.0, m) == Times(n, m) + m
  {
  }

  lemma TimesZero(m: real)
    ensures Times(0.0, m) == 0.0
  {
  }

  /** 0 <= t <= d gives t / d in [0, 1], with 0 / d == 0 and d / d == 1. */
  lemma UnitQuotient(t: real, d: real)
    requires 0.0 <= t <= d && d > 0.0
    ensures 0.0 <= t / d <= 1.0
    ensures t == 0.0 ==> t / d == 0.0
    ensures t == d ==> t / d == 1.0
  {
    QuotientBetween(t, d, 0.0, 1.0);
  }

  lemma TimesAdd(a: real, b: real, m: real)
    ensures Times(a, m) + Times(b, m) == Times(a + b, m)
  {
  }

  lemma CancelFactor(d: real, m: real)
    requires d != 0.0
    ensures Times(d, m) / d == m
  {
  }
}
