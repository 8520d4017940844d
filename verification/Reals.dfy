/** Products and quotients of reals.

    Products are named, so that the lemmas about them apply without non-linear search. */
module Reals {
  function Times(a: real, b: real): real { a * b }

  lemma {:induction false} NonZero(a: real, b: real)
    requires a != 0.0 && b != 0.0
    ensures Times(a, b) != 0.0
  {
  }

  lemma {:induction false} SquareNonNegative(a: real)
    ensures Times(a, a) >= 0.0
  {
    if a < 0.0 { assert a * a == (-a) * (-a); }
  }

  lemma {:induction false} Monotone(a: real, b: real, c: real)
    requires a <= b && c >= 0.0
    ensures Times(a, c) <= Times(b, c)
  {
    assert (b - a) * c >= 0.0;
  }

  lemma {:induction false} StrictlyMonotone(a: real, b: real, c: real)
    requires a < b && c > 0.0
    ensures Times(a, c) < Times(b, c)
  {
    assert (b - a) * c > 0.0;
  }

  lemma {:induction false} ProductNonNegative(a: real, b: real)
    requires a >= 0.0 && b >= 0.0
    ensures Times(a, b) >= 0.0
  {
    Monotone(0.0, a, b);
    assert Times(0.0, b) == 0.0;
  }

  lemma {:induction false} Commute(a: real, b: real)
    ensures Times(a, b) == Times(b, a)
  {
  }

  lemma {:induction false} Associate(a: real, b: real, c: real)
    ensures Times(Times(a, b), c) == Times(a, Times(b, c))
  {
  }

  lemma {:induction false} Distribute(a: real, b: real, c: real)
    ensures Times(a, b + c) == Times(a, b) + Times(a, c) == Times(b + c, a)
  {
  }

  /** (ab)(cd) == (ac)(bd) */
  lemma {:induction false} Regroup(a: real, b: real, c: real, d: real)
    ensures Times(Times(a, b), Times(c, d)) == Times(Times(a, c), Times(b, d))
  {
    assert (a * b) * (c * d) == (a * c) * (b * d);
  }

  lemma {:induction false} SquareOfSum(p: real, q: real)
    ensures Times(p + q, p + q) == Times(p, p) + 2.0 * Times(p, q) + Times(q, q)
  {
  }

  lemma {:induction false} SquareOrder(a: real, b: real)
    requires b >= 0.0 && Times(a, a) <= Times(b, b)
    ensures -b <= a <= b
  {
    var m := if a < 0.0 then -a else a;
    assert m * m == a * a;
    if m > b {
      StrictlyMonotone(b, m, m);
      Monotone(b, m, b);
      Commute(b, m);
    }
  }

  lemma {:induction false} Divided(d: real, n: real) returns (q: real)
    requires n != 0.0
    ensures q == d / n && Times(q, n) == d
  {
    q := d / n;
  }

  lemma {:induction false} QuotientIs(d: real, n: real, q: real)
    requires n != 0.0 && Times(q, n) == d
    ensures d / n == q
  {
  }

  lemma {:induction false} OrderBack(p: real, q: real, s: real)
    requires s > 0.0 && Times(q, s) <= Times(p, s)
    ensures q <= p
  {
    if q > p { StrictlyMonotone(p, q, s); }
  }
}
