/** The Bayesian health arithmetic of one model: Wilson lower bound, Beta variance, stability.
    Floating point is read as exact reals.  `f64::sqrt` is a parameter `root`, constrained only by
    `IsSqrt`, so every statement holds for the real square root. */
module Health {
  import opened Types
  import opened Reals

  datatype HealthStatus = HealthStatus(
    lastSuccess: SequencedInstant,
    lastFailure: SequencedInstant,
    successRatio: real,
    latencyAvgMs: real,
    garbage: bool,
    successCount: nat,
    failureCount: nat
  ) {
    function Alpha(): real {
      successCount as real + 1.0
    }

    function BetaParam(): real {
      failureCount as real + 1.0
    }

    function TotalObs(): nat {
      successCount + failureCount
    }

    function BayesianCompetence(): real {
      Alpha() / (Alpha() + BetaParam())
    }

    function WilsonLower(root: real -> real): real {
      if TotalObs() == 0 then 0.5 else
        var n := TotalObs() as real;
        var p := successCount as real / n;
        WilsonAt(p, n, root(Radicand(p, n)))
    }

    function BetaVariance(): real {
      var a, b := Alpha(), BetaParam();
      var n := a + b;
      (a * b) / (n * n * (n + 1.0))
    }

    function StabilityScore(root: real -> real): real {
      1.0 - Clamp(root(BetaVariance()) / 0.5)
    }
  }

  const FRESH := HealthStatus(EPOCH, EPOCH, 0.5, 0.0, false, 0, 0)

  /** z for a 95% confidence interval. */
  const Z := 1.96
  const GARBAGE_THRESHOLD := 0.15
  const MIN_OBS := 5

  /** `clamp(0.0, 1.0)` */
  function Clamp(x: real): real {
    if x < 0.0 then 0.0 else if x > 1.0 then 1.0 else x
  }

  /** What the Wilson formula takes the square root of. */
  function Radicand(p: real, n: real): real
    requires n > 0.0
  {
    p * (1.0 - p) / n + Z * Z / (4.0 * n * n)
  }

  /** The Wilson formula, given the root `r` of the radicand. */
  function WilsonAt(p: real, n: real, r: real): real
    requires n > 0.0
  {
    var num := p + Z * Z / (2.0 * n) - Z * r;
    var den := 1.0 + Z * Z / n;
    Clamp(num / den)
  }

  ghost predicate IsSqrt(root: real -> real) {
    forall x: real :: x >= 0.0 ==> root(x) >= 0.0 && root(x) * root(x) == x
  }

  /** `is_garbage`, as written over the Wilson bound. */
  function IsGarbage(h: HealthStatus, root: real -> real): bool {
    h.TotalObs() >= MIN_OBS && h.WilsonLower(root) < GARBAGE_THRESHOLD && h.lastFailure.After(h.lastSuccess)
  }

  // ----- the square-root-free form ----------------------------------------------------------------

  /** The counts put the lower bound under `t`, said with polynomials only. */
  predicate Under(s: nat, f: nat, t: real) {
    UnderReal(s as real, (s + f) as real, t)
  }

  predicate UnderReal(s: real, n: real, t: real) {
    var d := s - t * n;
    d < 0.0 || d * d < Z * Z * t * (1.0 - t) * n
  }

  /** The garbage test without a square root. */
  predicate Garbage(h: HealthStatus) {
    h.TotalObs() >= MIN_OBS && Under(h.successCount, h.failureCount, GARBAGE_THRESHOLD)
    && h.lastFailure.After(h.lastSuccess)
  }

  /** Under the mean the polynomial test holds by itself, ... */
  lemma UnderMean(w: real, t: real, d: real)
    requires w > 0.0 && 0.0 < t && 0.0 <= d <= t && d <= w * (0.5 - t)
    ensures d * d < w * t * (1.0 - t)
  {
    var b := w * (0.5 - t);
    var wt := Product(w, t);
    calc {
      d * d;
    <= { Monotone(d, d, t); }
      d * t;
    == t * d;
    <= { Monotone(t, d, b); }
      t * b;
    == wt * (0.5 - t);
    < wt * (1.0 - t);
    }
  }

  /** ... and above it a negative left side implies the test. */
  lemma AboveMean(w: real, t: real, d: real)
    requires w > 0.0 && t < 1.0 && 0.0 <= d <= 1.0 - t && d < w * (t - 0.5)
    ensures d * d < w * t * (1.0 - t)
  {
    var u := 1.0 - t;
    var b := w * (t - 0.5);
    var wu := Product(w, u);
    calc {
      d * d;
    <= { Monotone(d, d, u); }
      d * u;
    == u * d;
    <= { Monotone(u, d, b); }
      u * b;
    == wu * (t - 0.5);
    < wu * t;
    == w * t * u;
    }
  }

  /** The bound's numerator compared with `t` times its denominator, in the normal form
      p = s/n, w = z*z/n and q = z times the square root. */
  lemma BoundBelow(p: real, w: real, q: real, t: real)
    requires 0.0 <= p <= 1.0 && w > 0.0 && 0.0 < t < 1.0
    requires q >= 0.0 && q * q == w * p * (1.0 - p) + w * w / 4.0
    ensures p + w / 2.0 - q < t * (1.0 + w) <==> (p < t || (p - t) * (p - t) < w * t * (1.0 - t))
  {
    var a := p + w / 2.0 - t * (1.0 + w);
    var g := (p - t) * (p - t) - w * t * (1.0 - t);
    SquareLess(a, q);
    assert a == (p - t) - w * (t - 0.5) == w * (0.5 - t) - (t - p);
    if p < t && a >= 0.0 {
      UnderMean(w, t, t - p);
      assert (t - p) * (t - p) == (p - t) * (p - t);
    }
    if a < 0.0 && p >= t { AboveMean(w, t, p - t); }
  }

  // ----- the bound over the counts ---------------------------------------------------------------

  /** For every threshold, not only 0.15: the clamped bound lies under `t` exactly when the
      polynomial test says so. */
  lemma WilsonBelow(h: HealthStatus, root: real -> real, t: real)
    requires IsSqrt(root) && h.TotalObs() > 0 && 0.0 < t < 1.0
    ensures h.WilsonLower(root) < t <==> Under(h.successCount, h.failureCount, t)
  {
    var n, s := h.TotalObs() as real, h.successCount as real;
    var p := s / n;
    WilsonAtBelow(s, n, p, root(Radicand(p, n)), t);
  }

  lemma HalfQuotient(z2: real, n: real)
    requires n > 0.0
    ensures z2 / (2.0 * n) == (z2 / n) / 2.0
  {
    var w := z2 / n;
    assert w * n == z2;
    assert (z2 / (2.0 * n) - w / 2.0) * (2.0 * n) == 0.0;
  }

  lemma WilsonAtBelow(s: real, n: real, p: real, r: real, t: real)
    requires n > 0.0 && p == s / n && 0.0 <= p <= 1.0 && r >= 0.0 && r * r == Radicand(p, n) && 0.0 < t < 1.0
    ensures WilsonAt(p, n, r) < t <==> UnderReal(s, n, t)
  {
    var w := Z * Z / n;
    WilsonAtForm(p, n, r, w, t);
    ThresholdUnder(s, n, p, w, t);
  }

  lemma WilsonAtForm(p: real, n: real, r: real, w: real, t: real)
    requires n > 0.0 && 0.0 <= p <= 1.0 && r >= 0.0 && r * r == Radicand(p, n) && w == Z * Z / n && 0.0 < t < 1.0
    ensures WilsonAt(p, n, r) < t <==> (p < t || (p - t) * (p - t) < w * t * (1.0 - t))
  {
    FormulaBelow(p, n, w, r, t);
  }

  lemma ThresholdUnder(s: real, n: real, p: real, w: real, t: real)
    requires n > 0.0 && p == s / n && w == Z * Z / n
    ensures (p < t || (p - t) * (p - t) < w * t * (1.0 - t)) <==> UnderReal(s, n, t)
  {
  }

  lemma FormulaBelow(p: real, n: real, w: real, r: real, t: real)
    requires n > 0.0 && 0.0 <= p <= 1.0 && w == Z * Z / n && w > 0.0 && 0.0 < t < 1.0
    requires r >= 0.0 && Z * Z * (r * r) == w * p * (1.0 - p) + w * w / 4.0
    ensures WilsonAt(p, n, r) < t <==> (p < t || (p - t) * (p - t) < w * t * (1.0 - t))
  {
    var q := RootTimes(r, w * p * (1.0 - p) + w * w / 4.0);
    WilsonForm(p, n, w, q, r);
    ClampedBelow(p, w, q, t);
  }

  lemma RootTimes(r: real, x: real) returns (q: real)
    requires r >= 0.0 && Z * Z * (r * r) == x
    ensures q == Z * r && q >= 0.0 && q * q == x
  {
    q := Product(Z, r);
  }

  lemma ClampedBelow(p: real, w: real, q: real, t: real)
    requires 0.0 <= p <= 1.0 && w > 0.0 && 0.0 < t < 1.0
    requires q >= 0.0 && q * q == w * p * (1.0 - p) + w * w / 4.0
    ensures Clamp((p + w / 2.0 - q) / (1.0 + w)) < t <==> (p < t || (p - t) * (p - t) < w * t * (1.0 - t))
  {
    ClampedQuotientLess(p + w / 2.0 - q, 1.0 + w, t);
    BoundBelow(p, w, q, t);
  }

  lemma WilsonForm(p: real, n: real, w: real, q: real, r: real)
    requires n > 0.0 && w == Z * Z / n && w > 0.0 && q == Z * r
    ensures WilsonAt(p, n, r) == Clamp((p + w / 2.0 - q) / (1.0 + w))
  {
    HalfQuotient(Z * Z, n);
  }

  lemma ClampedQuotientLess(x: real, d: real, t: real)
    requires d > 0.0 && 0.0 < t < 1.0
    ensures Clamp(x / d) < t <==> x < t * d
  {
    QuotientLess(x, d, t);
  }

  /** The garbage test of the source, with its square root, is the polynomial test. */
  lemma GarbageIsPolynomial(h: HealthStatus, root: real -> real)
    requires IsSqrt(root)
    ensures IsGarbage(h, root) == Garbage(h)
  {
    if h.TotalObs() > 0 { WilsonBelow(h, root, GARBAGE_THRESHOLD); }
  }

  /** The counts that make a model a candidate for garbage, in plain numbers: five observations, and with n of
      them, less than 15% of successes or less than 15% and a margin that grows with the root of n. */
  lemma GarbageInNumbers(h: HealthStatus, root: real -> real)
    requires IsSqrt(root)
    ensures var s, n := h.successCount as real, (h.successCount + h.failureCount) as real;
      var d := 100.0 * s - 15.0 * n;
      IsGarbage(h, root) <==>
        h.successCount + h.failureCount >= 5 && (d < 0.0 || d * d < 4898.04 * n) && h.lastFailure.After(h.lastSuccess)
  {
    GarbageIsPolynomial(h, root);
  }

  /** With data the bound never exceeds the observed success rate. */
  lemma WilsonAtMostMean(h: HealthStatus, root: real -> real)
    requires IsSqrt(root) && h.TotalObs() > 0
    ensures 0.0 <= h.WilsonLower(root) <= h.successCount as real / h.TotalObs() as real
  {
    var n, s := h.TotalObs() as real, h.successCount as real;
    var p, bound := s / n, h.WilsonLower(root);
    if p < bound {
      var t := (p + bound) / 2.0;
      MeanUnder(s, n, t);
      assert !(bound < t);
      WilsonBelow(h, root, t);
      assert false;
    }
  }

  lemma MeanUnder(s: real, n: real, t: real)
    requires n > 0.0 && s / n < t
    ensures UnderReal(s, n, t)
  {
    QuotientLess(s, n, t);
  }

  /** The clamp in `wilson_lower` never acts: the fraction it receives already lies in [0, 1]. */
  lemma ClampNeverActs(p: real, n: real, r: real)
    requires 0.0 <= p <= 1.0 && n > 0.0 && r >= 0.0 && r * r == Radicand(p, n)
    ensures WilsonAt(p, n, r) == (p + Z * Z / (2.0 * n) - Z * r) / (1.0 + Z * Z / n)
  {
    var w := Z * Z / n;
    var x := ClampedNumerator(p, n, r, w);
    HalfQuotient(Z * Z, n);
    QuotientInUnit(x, 1.0 + w);
  }

  lemma ClampedNumerator(p: real, n: real, r: real, w: real) returns (x: real)
    requires 0.0 <= p <= 1.0 && n > 0.0 && r >= 0.0 && r * r == Radicand(p, n) && w == Z * Z / n
    ensures x == p + w / 2.0 - Z * r && 0.0 <= x <= 1.0 + w && w > 0.0
  {
    var q := Product(Z, r);
    x := p + w / 2.0 - q;
    QuotientLess(Z * Z, n, 0.0);
    NumeratorRange(p, w, q);
  }

  lemma QuotientInUnit(x: real, d: real)
    requires 0.0 <= x <= d && d > 0.0
    ensures Clamp(x / d) == x / d
  {
    QuotientLess(x, d, 0.0);
    QuotientLess(x, d, 1.0);
  }

  lemma NumeratorRange(p: real, w: real, q: real)
    requires 0.0 <= p <= 1.0 && w > 0.0 && q >= 0.0 && q * q == w * p * (1.0 - p) + w * w / 4.0
    ensures 0.0 <= p + w / 2.0 - q <= 1.0 + w
  {
    var a := p + w / 2.0;
    SquareLess(a, q);
    var p2 := Product(p, p);
    var wp2 := Product(w, p2);
    assert a * a - q * q == p2 + wp2;
  }

  // ----- one more observation --------------------------------------------------------------------

  lemma UnderAfterSuccess(s: real, n: real, t: real)
    requires 0.0 <= s <= n && n > 0.0 && 0.0 < t < 1.0
    ensures UnderReal(s + 1.0, n + 1.0, t) ==> UnderReal(s, n, t)
  {
    var d, u, k := s - t * n, 1.0 - t, Z * Z * t;
    if !UnderReal(s, n, t) {
      assert d * d >= k * u * n;
      assert d <= n * u by { assert n * u - d == n - s; }
      SpreadAtLeast(d, n * u, k);
      Monotone(u, k, 2.0 * d);
      assert (s + 1.0) - t * (n + 1.0) == d + u;
      assert (d + u) * (d + u) == d * d + u * (2.0 * d) + u * u;
      var u2 := Product(u, u);
      assert k * u * (n + 1.0) == k * u * n + u * k;
    }
  }

  /** A gap whose square is at least `k` times a quantity no smaller than the gap is itself at least `k`. */
  lemma SpreadAtLeast(d: real, m: real, k: real)
    requires 0.0 <= d <= m && m > 0.0 && k > 0.0 && d * d >= k * m
    ensures d >= k
  {
    if d < k {
      Monotone(d, d, k);
      Monotone(k, d, m);
      if d <= 0.0 { var _ := Product(k, m); }
    }
  }

  lemma UnderAfterFailure(s: real, n: real, t: real)
    requires n >= 0.0 && 0.0 < t < 1.0
    ensures UnderReal(s, n, t) ==> UnderReal(s, n + 1.0, t)
  {
    var d, e, k := s - t * n, s - t * (n + 1.0), Z * Z * t * (1.0 - t);
    assert e == d - t;
    if UnderReal(s, n, t) && e >= 0.0 {
      Monotone(e, e, d);
      Monotone(d, e, d);
      var k' := Product(t, 1.0 - t);
      assert k * (n + 1.0) == k * n + k;
    }
  }

  ghost predicate OneMoreSuccess(h: HealthStatus, h': HealthStatus) {
    h'.successCount == h.successCount + 1 && h'.failureCount == h.failureCount
  }

  /** One more success never lowers the Wilson bound, except for the very first observation, where
      the bound falls from the neutral 0.5. */
  lemma SuccessRaisesBound(h: HealthStatus, h': HealthStatus, root: real -> real)
    requires IsSqrt(root) && OneMoreSuccess(h, h')
    ensures h.WilsonLower(root) <= h'.WilsonLower(root) <==> h.TotalObs() > 0
  {
    if h.TotalObs() == 0 {
      WilsonBelow(h', root, 0.5);
    } else {
      var lower, raised := h.WilsonLower(root), h'.WilsonLower(root);
      if raised < lower {
        var t := (lower + raised) / 2.0;
        WilsonBelow(h, root, t);
        WilsonBelow(h', root, t);
        UnderAfterSuccess(h.successCount as real, h.TotalObs() as real, t);
        assert false;
      }
    }
  }

  /** One more failure never raises it. */
  lemma FailureLowersBound(h: HealthStatus, h': HealthStatus, root: real -> real)
    requires IsSqrt(root) && h'.successCount == h.successCount && h'.failureCount == h.failureCount + 1
    ensures h'.WilsonLower(root) <= h.WilsonLower(root)
  {
    var lower, raised := h'.WilsonLower(root), h.WilsonLower(root);
    if h.TotalObs() == 0 {
      WilsonAtMostMean(h', root);
    } else if raised < lower {
      var t := (lower + raised) / 2.0;
      WilsonBelow(h, root, t);
      WilsonBelow(h', root, t);
      UnderAfterFailure(h.successCount as real, h.TotalObs() as real, t);
      assert false;
    }
  }
}
