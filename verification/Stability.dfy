/** The variance of the Beta posterior, and why a success always pays: the competence it adds is
    worth more than the stability it may cost. */
module Stability {
  import opened Reals
  import opened Health

  /** Two positive shares of a sum multiply to at most a quarter of its square. */
  lemma SharesProduct(a: real, b: real)
    ensures 4.0 * (a * b) <= (a + b) * (a + b)
  {
    var d := a - b;
    assert (a + b) * (a + b) - 4.0 * (a * b) == d * d;
  }

  lemma DenominatorPositive(n: real) returns (m: real)
    requires n > 0.0
    ensures m == n * n * (n + 1.0) && m > 0.0
  {
    var n2 := Product(n, n);
    m := Product(n2, n + 1.0);
  }

  /** The variance never exceeds 1/12, which is that of the uniform prior. */
  lemma VarianceBound(h: HealthStatus)
    ensures 0.0 < h.BetaVariance() <= 1.0 / 12.0
    ensures h.TotalObs() == 0 ==> h.BetaVariance() == 1.0 / 12.0
  {
    var a, b := h.Alpha(), h.BetaParam();
    var n := a + b;
    var ab := Product(a, b);
    var m := DenominatorPositive(n);
    SharesProduct(a, b);
    VarianceQuotient(ab, n, m);
    assert h.BetaVariance() == ab / m;
  }

  lemma VarianceQuotient(ab: real, n: real, m: real)
    requires n >= 2.0 && m == n * n * (n + 1.0) && m > 0.0 && ab > 0.0 && 4.0 * ab <= n * n
    ensures 0.0 < ab / m <= 1.0 / 12.0
  {
    var n2 := Product(n, n);
    QuotientLess(ab, m, 0.0);
    QuotientLess(ab, m, 1.0 / 12.0);
    Monotone(n2, 3.0, n + 1.0);
  }

  /** The standard deviation lies in (0, 1/2), so the clamp inside the stability score never acts. */
  lemma StabilityForm(h: HealthStatus, root: real -> real)
    requires IsSqrt(root)
    ensures var r := root(h.BetaVariance());
      0.0 < r < 0.5 && r * r == h.BetaVariance() && h.StabilityScore(root) == 1.0 - 2.0 * r
    ensures 0.0 < h.StabilityScore(root) < 1.0
  {
    VarianceBound(h);
  }

  // ----- a success always pays ---------------------------------------------------------------------

  /** `u` and `v` are the two standard deviations, each scaled by its own n. */
  lemma SpreadGrowth(a: real, b: real, n: real, u: real, v: real)
    requires a >= 1.0 && b >= 1.0 && n == a + b && u >= 0.0 && v >= 0.0
    requires u * u * (n + 2.0) == (a + 1.0) * b && v * v * (n + 1.0) == a * b
    ensures n * u - (n + 1.0) * v < b
  {
    if u > v {
      var d := u - v;
      var k := Product(d, n + 1.0);
      GrowthBound(a, b, n, u, v, d, k);
    }
  }

  lemma GrowthBound(a: real, b: real, n: real, u: real, v: real, d: real, k: real)
    requires a >= 1.0 && b >= 1.0 && n == a + b && v >= 0.0 && d > 0.0 && d == u - v
    requires k == d * (n + 1.0) && k >= 0.0
    requires u * u * (n + 2.0) == (a + 1.0) * b && v * v * (n + 1.0) == a * b
    ensures k <= b
  {
    GapProduct(a, b, n, u, v, d);
    var y := ScaledSpreadAtLeast(a, b, n, u);
    GapBound(d, u, v, n, b, k, y);
  }

  lemma ScaledSpreadAtLeast(a: real, b: real, n: real, u: real) returns (y: real)
    requires a >= 1.0 && b >= 1.0 && n == a + b && u >= 0.0
    requires u * u * (n + 2.0) == (a + 1.0) * b
    ensures y == u * (n + 2.0) && y >= b + 1.0
  {
    y := Product(u, n + 2.0);
    NewSpreadAtLeast(a, b, n, u, y);
  }

  lemma GapBound(d: real, u: real, v: real, n: real, b: real, k: real, y: real)
    requires d >= 0.0 && v >= 0.0 && n >= 0.0 && b > 0.0
    requires k == d * (n + 1.0) && k >= 0.0 && y == u * (n + 2.0) && y >= b + 1.0
    requires d * (u + v) * ((n + 1.0) * (n + 2.0)) == b * (b + 1.0)
    ensures k <= b
  {
    calc {
      k * (b + 1.0);
    <= { Monotone(k, b + 1.0, y); }
      k * y;
    == { assert k * y == d * (n + 1.0) * (u * (n + 2.0)); }
      d * u * ((n + 1.0) * (n + 2.0));
    <= { GapTimesSum(d, u, v, n); }
      d * (u + v) * ((n + 1.0) * (n + 2.0));
    == b * (b + 1.0);
    }
  }

  lemma NewSpreadAtLeast(a: real, b: real, n: real, u: real, y: real)
    requires a >= 1.0 && b >= 1.0 && n == a + b && y >= 0.0 && y == u * (n + 2.0)
    requires u * u * (n + 2.0) == (a + 1.0) * b
    ensures y >= b + 1.0
  {
    SquareLess(y, b + 1.0);
    var m := Product(b, n + 2.0);
    calc {
      (b + 1.0) * (b + 1.0);
    <= { Monotone(b + 1.0, b + 1.0, 2.0 * b); }
      (b + 1.0) * (2.0 * b);
    == 2.0 * b * (b + 1.0);
    <= { Monotone(2.0 * b, b + 1.0, n + 2.0); }
      2.0 * b * (n + 2.0);
    == m * 2.0;
    <= { Monotone(m, 2.0, a + 1.0); }
      m * (a + 1.0);
    == y * y;
    }
  }

  lemma GapProduct(a: real, b: real, n: real, u: real, v: real, d: real)
    requires n == a + b && d == u - v
    requires u * u * (n + 2.0) == (a + 1.0) * b && v * v * (n + 1.0) == a * b
    ensures d * (u + v) * ((n + 1.0) * (n + 2.0)) == b * (b + 1.0)
  {
    assert d * (u + v) == u * u - v * v;
    assert u * u * ((n + 1.0) * (n + 2.0)) == (a + 1.0) * b * (n + 1.0);
    assert v * v * ((n + 1.0) * (n + 2.0)) == a * b * (n + 2.0);
  }

  lemma GapTimesSum(d: real, u: real, v: real, n: real)
    requires d >= 0.0 && v >= 0.0 && n >= 0.0
    ensures d * u * ((n + 1.0) * (n + 2.0)) <= d * (u + v) * ((n + 1.0) * (n + 2.0))
  {
    Monotone(d, u, u + v);
    var m := Product(n + 1.0, n + 2.0);
    Monotone(m, d * u, d * (u + v));
  }

  /** A success with all else equal: the competence it gains, weighted 0.25, exceeds whatever the
      stability loses, weighted 0.10. */
  lemma SuccessPays(h: HealthStatus, h': HealthStatus, root: real -> real)
    requires IsSqrt(root) && OneMoreSuccess(h, h')
    ensures h.BayesianCompetence() * 0.25 + h.StabilityScore(root) * 0.10
          < h'.BayesianCompetence() * 0.25 + h'.StabilityScore(root) * 0.10
  {
    var a, b, n := Posterior(h);
    var a', b', n' := Posterior(h');
    var c', r', u := ScaledSpread(h', root, a', b', n');
    var c, r, v := ScaledSpread(h, root, a, b, n);
    assert n * u - (n + 1.0) * v < b by { NextGrowth(a, b, n, a', n', u, v); }
    SpreadPays(a, b, n, a', n', c, c', r, r', u, v);
  }

  lemma Posterior(h: HealthStatus) returns (a: real, b: real, n: real)
    ensures a == h.Alpha() >= 1.0 && b == h.BetaParam() >= 1.0 && n == a + b
  {
    a, b := h.Alpha(), h.BetaParam();
    n := a + b;
  }

  /** The two factors in terms of the posterior's parameters: `c` is the mean and `r` the standard deviation. */
  lemma ScaledSpread(h: HealthStatus, root: real -> real, a: real, b: real, n: real)
    returns (c: real, r: real, v: real)
    requires IsSqrt(root) && a == h.Alpha() && b == h.BetaParam() && n == a + b
    ensures h.StabilityScore(root) == 1.0 - 2.0 * r && h.BayesianCompetence() == c && c * n == a
    ensures v == n * r && v >= 0.0 && v * v * (n + 1.0) == a * b
  {
    StabilityForm(h, root);
    c := h.BayesianCompetence();
    r := root(h.BetaVariance());
    var _ := DenominatorPositive(n);
    v := Product(n, r);
  }

  lemma NextGrowth(a: real, b: real, n: real, a': real, n': real, u: real, v: real)
    requires a >= 1.0 && b >= 1.0 && n == a + b && u >= 0.0 && v >= 0.0 && a' == a + 1.0 && n' == n + 1.0
    requires u * u * (n' + 1.0) == a' * b && v * v * (n + 1.0) == a * b
    ensures n * u - (n + 1.0) * v < b
  {
    SpreadGrowth(a, b, n, u, v);
  }

  lemma SpreadPays(
    a: real, b: real, n: real, a': real, n': real, c: real, c': real, r: real, r': real, u: real, v: real)
    requires a >= 1.0 && b >= 1.0 && n == a + b && a' == a + 1.0 && n' == n + 1.0
    requires c * n == a && c' * n' == a' && u == n' * r' && v == n * r
    requires n * u - (n + 1.0) * v < b
    ensures 0.20 * (r' - r) < 0.25 * (c' - c)
  {
    var _ := Product(n, n');
  }
}
