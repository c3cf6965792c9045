/** The five-factor score of a model for a request. */
module Scorer {
  import opened Types
  import opened Reals
  import opened Health
  import opened Stability

  datatype ScoringWeights = ScoringWeights(health: real, latency: real, successRate: real, stability: real, load: real)

  const DEFAULT_WEIGHTS := ScoringWeights(0.35, 0.20, 0.25, 0.10, 0.10)

  function HealthScore(h: HealthStatus): real {
    if h.garbage then 0.0
    else if h.lastSuccess == EPOCH then 0.5
    else 1.0
  }

  function LatencyScore(h: HealthStatus): real {
    if h.latencyAvgMs <= 0.0 then 0.5
    else
      var x := 1.0 - (h.latencyAvgMs - 500.0) / 9500.0;
      if x < 0.0 then 0.0 else x
  }

  function LoadScore(inflight: nat, maxInflight: nat): real {
    if maxInflight == 0 then 0.0
    else
      var x := 1.0 - inflight as real / maxInflight as real;
      if x < 0.0 then 0.0 else x
  }

  function CapabilityMatch(model: Model, request: RouteRequest): real {
    var c := model.capabilities;
    (if request.taskType in c.taskSuitability then 0.15 else 0.0)
    + (if request.requireVision && c.supportsVision then 0.10 else 0.0)
    + (if request.requireToolUse && c.supportsToolUse then 0.10 else 0.0)
    + (if request.minContextWindow.Some? && c.contextWindow >= request.minContextWindow.value then 0.05 else 0.0)
  }

  function MaxInflight(request: RouteRequest): nat {
    match request.maxInflightPerModel
    case Some(n) => n
    case None => 3
  }

  function Factors(w: ScoringWeights, h: HealthStatus, inflight: nat, request: RouteRequest, root: real -> real)
    : seq<ScoreFactor>
  {
    [ScoreFactor("health", HealthScore(h), w.health),
     ScoreFactor("latency", LatencyScore(h), w.latency),
     ScoreFactor("success_rate", h.BayesianCompetence(), w.successRate),
     ScoreFactor("stability", h.StabilityScore(root), w.stability),
     ScoreFactor("load", LoadScore(inflight, MaxInflight(request)), w.load)]
  }

  function Total(factors: seq<ScoreFactor>): real {
    if factors == [] then 0.0 else Total(factors[..|factors| - 1]) + factors[|factors| - 1].Contribution()
  }

  function Score(
    w: ScoringWeights, model: Model, h: HealthStatus, inflight: nat, request: RouteRequest, root: real -> real)
    : (real, seq<ScoreFactor>)
  {
    var factors := Factors(w, h, inflight, request, root);
    (Total(factors) + CapabilityMatch(model, request), factors)
  }

  // ----- range ---------------------------------------------------------------------------------------

  lemma TotalOfFive(a: ScoreFactor, b: ScoreFactor, c: ScoreFactor, d: ScoreFactor, e: ScoreFactor)
    ensures Total([a, b, c, d, e])
      == a.Contribution() + b.Contribution() + c.Contribution() + d.Contribution() + e.Contribution()
  {
    assert [a, b, c, d, e][..4] == [a, b, c, d];
    assert [a, b, c, d][..3] == [a, b, c];
    assert [a, b, c][..2] == [a, b];
    assert [a, b][..1] == [a];
    assert [a][..0] == [];
    assert Total([a]) == a.Contribution();
    assert Total([a, b, c]) == Total([a, b]) + c.Contribution();
  }

  lemma DefaultTotal(model: Model, h: HealthStatus, inflight: nat, request: RouteRequest, root: real -> real)
    ensures Score(DEFAULT_WEIGHTS, model, h, inflight, request, root).0 ==
      HealthScore(h) * 0.35 + LatencyScore(h) * 0.20 + h.BayesianCompetence() * 0.25 + h.StabilityScore(root) * 0.10
      + LoadScore(inflight, MaxInflight(request)) * 0.10 + CapabilityMatch(model, request)
  {
    var f := Factors(DEFAULT_WEIGHTS, h, inflight, request, root);
    TotalOfFive(f[0], f[1], f[2], f[3], f[4]);
    assert f == [f[0], f[1], f[2], f[3], f[4]];
  }

  lemma CompetenceRange(h: HealthStatus)
    ensures 0.0 < h.BayesianCompetence() < 1.0
  {
    QuotientLess(h.Alpha(), h.Alpha() + h.BetaParam(), 0.0);
    QuotientLess(h.Alpha(), h.Alpha() + h.BetaParam(), 1.0);
  }

  /** Under the default weights every score is positive and below 1.4 + 1/95. */
  lemma ScoreRange(model: Model, h: HealthStatus, inflight: nat, request: RouteRequest, root: real -> real)
    requires IsSqrt(root)
    ensures 0.0 < Score(DEFAULT_WEIGHTS, model, h, inflight, request, root).0 < 1.4 + 1.0 / 95.0
    ensures h.latencyAvgMs <= 0.0 || h.latencyAvgMs >= 500.0 ==>
      Score(DEFAULT_WEIGHTS, model, h, inflight, request, root).0 < 1.4
  {
    DefaultTotal(model, h, inflight, request, root);
    CompetenceRange(h);
    StabilityForm(h, root);
  }

  /** What `s` good probes of a new model leave when their average latency is `latency`. */
  function Champion(s: nat, latency: real): HealthStatus {
    HealthStatus(SequencedInstant(1, 0), EPOCH, 0.5, latency, false, s, 0)
  }

  const ALL_ROUNDER := Model("m", "p", ModelCapabilities([Chat], true, true, 1))
  const DEMANDING := RouteRequest(Chat, None, true, true, Some(1), Some(3))

  /** The shortfall of a champion's competence and stability shrinks like 1/n. */
  lemma ChampionShortfall(s: nat, latency: real, root: real -> real)
    requires IsSqrt(root)
    ensures var h := Champion(s, latency);
      h.BayesianCompetence() * 0.25 + h.StabilityScore(root) * 0.10 >= 0.35 - 0.45 / (s + 2) as real
  {
    var h := Champion(s, latency);
    var n := (s + 2) as real;
    assert h.Alpha() == n - 1.0 && h.BetaParam() == 1.0;
    assert h.BayesianCompetence() == 1.0 - 1.0 / n;
    var _, r, v := ScaledSpread(h, root, n - 1.0, 1.0, n);
    QuotientLess(1.0, n, r);
  }

  /** The score documented as at most 1.40 really is bounded by it at exactly those latency averages
      where the latency factor is: none recorded, or at least 500 ms. */
  lemma DocumentedMaximum(latency: real, root: real -> real)
    requires IsSqrt(root)
    ensures latency <= 0.0 || latency >= 500.0 <==>
      forall h: HealthStatus, model: Model, inflight: nat, request: RouteRequest | h.latencyAvgMs == latency ::
        Score(DEFAULT_WEIGHTS, model, h, inflight, request, root).0 <= 1.4
  {
    if latency <= 0.0 || latency >= 500.0 {
      forall h: HealthStatus, model: Model, inflight: nat, request: RouteRequest | h.latencyAvgMs == latency
        ensures Score(DEFAULT_WEIGHTS, model, h, inflight, request, root).0 <= 1.4
      {
        ScoreRange(model, h, inflight, request, root);
      }
    } else {
      var s := EnoughSuccesses(latency);
      AboveDocumented(s, latency, latency, root);
      assert Champion(s, latency).latencyAvgMs == latency;
    }
  }

  /** How many successes make up for less than full competence and stability, by the surplus that a latency
      under 500 ms brings. */
  lemma EnoughSuccesses(top: real) returns (s: nat)
    requires 0.0 < top < 500.0
    ensures s > 0 && 0.45 / (s + 2) as real < (500.0 - top) / 9500.0 * 0.20
  {
    var surplus := (500.0 - top) / 9500.0 * 0.20;
    s := (1.0 / surplus).Floor + 1;
    var n := (s + 2) as real;
    assert n > 1.0 / surplus;
    QuotientLess(1.0, surplus, n);
    QuotientLess(0.45, n, surplus);
  }

  lemma AboveDocumented(s: nat, latency: real, top: real, root: real -> real)
    requires IsSqrt(root) && 0.0 < latency <= top < 500.0 && 0.45 / (s + 2) as real < (500.0 - top) / 9500.0 * 0.20
    ensures Score(DEFAULT_WEIGHTS, ALL_ROUNDER, Champion(s, latency), 0, DEMANDING, root).0 > 1.4
  {
    ChampionShortfall(s, latency, root);
    DefaultTotal(ALL_ROUNDER, Champion(s, latency), 0, DEMANDING, root);
    assert CapabilityMatch(ALL_ROUNDER, DEMANDING) == 0.4 by {
      assert ALL_ROUNDER.capabilities.taskSuitability[0] == Chat;
    }
  }

  // ----- monotonicity --------------------------------------------------------------------------------

  /** One more recorded success, all else equal, strictly raises the score. */
  lemma SuccessRaisesScore(model: Model, h: HealthStatus, inflight: nat, request: RouteRequest, root: real -> real)
    requires IsSqrt(root)
    ensures Score(DEFAULT_WEIGHTS, model, h, inflight, request, root).0
          < Score(DEFAULT_WEIGHTS, model, h.(successCount := h.successCount + 1), inflight, request, root).0
  {
    var h' := h.(successCount := h.successCount + 1);
    DefaultTotal(model, h, inflight, request, root);
    DefaultTotal(model, h', inflight, request, root);
    SuccessPays(h, h', root);
  }

  lemma BusierLoad(a: nat, b: nat, maxInflight: nat)
    requires a < b
    ensures LoadScore(b, maxInflight) <= LoadScore(a, maxInflight)
    ensures LoadScore(b, maxInflight) < LoadScore(a, maxInflight) <==> a < maxInflight
  {
    if maxInflight > 0 {
      var m := maxInflight as real;
      QuotientLess(a as real, m, 1.0);
      var y := b as real / m;
      assert y * m == b as real;
      QuotientLess(a as real, m, y);
    }
  }

  /** More requests in flight never raise the score, and lower it exactly while there was capacity left. */
  lemma BusierScoresLower(model: Model, h: HealthStatus, a: nat, b: nat, request: RouteRequest, root: real -> real)
    requires a < b
    ensures var idle := Score(DEFAULT_WEIGHTS, model, h, a, request, root).0;
      var busy := Score(DEFAULT_WEIGHTS, model, h, b, request, root).0;
      busy <= idle && (busy < idle <==> a < MaxInflight(request))
  {
    DefaultTotal(model, h, a, request, root);
    DefaultTotal(model, h, b, request, root);
    BusierLoad(a, b, MaxInflight(request));
  }

  /** A higher latency average scores no higher, except that a model without measurements, which counts as
      half, is overtaken by every measured average under 5250 ms. */
  lemma SlowerScoresLower(
    model: Model, h: HealthStatus, latency: real, inflight: nat, request: RouteRequest, root: real -> real)
    requires h.latencyAvgMs <= latency
    ensures Score(DEFAULT_WEIGHTS, model, h.(latencyAvgMs := latency), inflight, request, root).0
         <= Score(DEFAULT_WEIGHTS, model, h, inflight, request, root).0
      <==> h.latencyAvgMs > 0.0 || latency <= 0.0 || latency >= 5250.0
  {
    var h' := h.(latencyAvgMs := latency);
    DefaultTotal(model, h, inflight, request, root);
    DefaultTotal(model, h', inflight, request, root);
    assert h'.Alpha() == h.Alpha() && h'.BetaParam() == h.BetaParam();
    assert h'.BetaVariance() == h.BetaVariance();
  }

  // ----- the score in plain numbers --------------------------------------------------------------------

  /** Health counts 0, 1/2 or 1; latency falls linearly from 500 ms to 10 s, and counts 1/2 when unmeasured;
      load is the share of free capacity, three requests unless the request says otherwise. */
  lemma SimpleFactors(h: HealthStatus, inflight: nat, request: RouteRequest)
    ensures HealthScore(h) ==
      (if h.garbage then 0.0 else if h.lastSuccess == SequencedInstant(0, 0) then 0.5 else 1.0)
    ensures h.latencyAvgMs <= 0.0 ==> LatencyScore(h) == 0.5
    ensures 0.0 < h.latencyAvgMs <= 10000.0 ==> 9500.0 * LatencyScore(h) == 10000.0 - h.latencyAvgMs
    ensures h.latencyAvgMs > 10000.0 ==> LatencyScore(h) == 0.0
    ensures var most := MaxInflight(request);
      && most == (if request.maxInflightPerModel.Some? then request.maxInflightPerModel.value else 3)
      && (inflight < most ==> most as real * LoadScore(inflight, most) == (most - inflight) as real)
      && (inflight >= most ==> LoadScore(inflight, most) == 0.0)
  {
  }

  /** Competence is (s+1)/(s+f+2).  Stability falls short of 1 by twice the posterior's standard deviation, whose
      square is (s+1)(f+1) / ((s+f+2)^2 (s+f+3)). */
  lemma PosteriorFactors(h: HealthStatus, root: real -> real)
    requires IsSqrt(root)
    ensures var s, f := h.successCount as real, h.failureCount as real;
      var n, twice := s + f + 2.0, 1.0 - h.StabilityScore(root);
      && n * h.BayesianCompetence() == s + 1.0
      && twice > 0.0 && twice * twice * (n * n * (n + 1.0)) == 4.0 * ((s + 1.0) * (f + 1.0))
  {
    StabilityForm(h, root);
    var _ := DenominatorPositive(h.Alpha() + h.BetaParam());
  }

  function One(b: bool): real {
    if b then 1.0 else 0.0
  }

  /** The bonus in hundredths: 15 for the request's task, 10 for vision, 10 for tools, 5 for the context window. */
  lemma BonusInHundredths(model: Model, request: RouteRequest)
    ensures var c := model.capabilities;
      100.0 * CapabilityMatch(model, request) ==
        15.0 * One(request.taskType in c.taskSuitability)
        + 10.0 * One(request.requireVision && c.supportsVision)
        + 10.0 * One(request.requireToolUse && c.supportsToolUse)
        + 5.0 * One(request.minContextWindow.Some? && request.minContextWindow.value <= c.contextWindow)
  {
  }

  /** The default score in hundredths: 35 parts health, 20 latency, 25 competence, 10 stability, 10 load, and
      the bonus; the factors are listed in that order. */
  lemma ScoreInHundredths(model: Model, h: HealthStatus, inflight: nat, request: RouteRequest, root: real -> real)
    ensures var (total, factors) := Score(DEFAULT_WEIGHTS, model, h, inflight, request, root);
      && 100.0 * total ==
           35.0 * HealthScore(h) + 20.0 * LatencyScore(h) + 25.0 * h.BayesianCompetence()
           + 10.0 * h.StabilityScore(root) + 10.0 * LoadScore(inflight, MaxInflight(request))
           + 100.0 * CapabilityMatch(model, request)
      && factors == [
           ScoreFactor("health", HealthScore(h), 0.35), ScoreFactor("latency", LatencyScore(h), 0.20),
           ScoreFactor("success_rate", h.BayesianCompetence(), 0.25),
           ScoreFactor("stability", h.StabilityScore(root), 0.10),
           ScoreFactor("load", LoadScore(inflight, MaxInflight(request)), 0.10)]
  {
    DefaultTotal(model, h, inflight, request, root);
  }
}
