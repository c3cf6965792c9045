/** The few facts about products and quotients of reals that the solver has to be handed one at a time. */
module Reals {

  lemma Monotone(c: real, x: real, y: real)
    requires c >= 0.0 && x <= y
    ensures c * x <= c * y
  {
    assert c * (y - x) >= 0.0;
  }

  /** The product under a name of its own, with its sign. */
  lemma Product(x: real, y: real) returns (m: real)
    ensures m == x * y
    ensures x >= 0.0 && y >= 0.0 ==> m >= 0.0
    ensures x > 0.0 && y > 0.0 ==> m > 0.0
  {
    m := x * y;
  }

  lemma SquareLess(a: real, q: real)
    requires q >= 0.0
    ensures a < q <==> (a < 0.0 || a * a < q * q)
  {
    if 0.0 <= a {
      if a < q {
        calc {
          a * a;
        <= { Monotone(a, a, q); }
          a * q;
        == q * a;
        < q * q;
        }
      } else {
        Monotone(a, q, a);
        Monotone(q, q, a);
      }
    }
  }

  /** Comparing a quotient is comparing its numerator with the scaled bound. */
  lemma QuotientLess(x: real, d: real, t: real)
    requires d > 0.0
    ensures x / d < t <==> x < t * d
    ensures t < x / d <==> t * d < x
  {
    var q := x / d;
    assert q * d == x;
    assert d * (q - t) == x - t * d;
    assert d * (t - q) == t * d - x;
  }
}
