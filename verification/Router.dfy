/** Deterministic selection, Thompson selection, tier restriction and fallback.  The source filters
    and maps the model list, sorts the result, and reads everything else off the sorted list. */
module Router {
  import opened Types
  import opened Health
  import opened Reducers
  import opened Scorer
  import opened Sorting
  import opened ModelRuns
  import opened GarbageRuns

  datatype Scored = Scored(total: real, factors: seq<ScoreFactor>, model: Model)

  /** Score descending, then id ascending. */
  predicate RanksBefore(x: Scored, y: Scored) {
    x.total > y.total || (x.total == y.total && LexLess(x.model.id, y.model.id))
  }

  predicate Available(v: Projection, m: Model) {
    m.id in v.health ==> !v.health[m.id].garbage
  }

  function HealthOf(v: Projection, m: Model): HealthStatus {
    if m.id in v.health then v.health[m.id] else FRESH
  }

  function InflightOf(v: Projection, m: Model): nat {
    if m.id in v.inflight then v.inflight[m.id] else 0
  }

  datatype RouterEngine = RouterEngine(weights: ScoringWeights, root: real -> real) {
    function Rate(v: Projection, request: RouteRequest, m: Model): Scored {
      var (total, factors) := Score(weights, m, HealthOf(v, m), InflightOf(v, m), request, root);
      Scored(total, factors, m)
    }

    /** The filter-map chain over the model list. */
    function Candidates(v: Projection, models: seq<Model>, request: RouteRequest): seq<Scored> {
      if models == [] then []
      else
        var rest, last := Candidates(v, models[..|models| - 1], request), models[|models| - 1];
        if Available(v, last) then rest + [Rate(v, request, last)] else rest
    }

    function Ranking(v: Projection, request: RouteRequest): seq<Scored> {
      SortBy(Candidates(v, v.models, request), RanksBefore)
    }

    function Decision(v: Projection, request: RouteRequest): RoutingDecision {
      BuildDecision(Ranking(v, request), v, request)
    }

    method Select(state: State, request: RouteRequest) returns (d: RoutingDecision)
      ensures d == Decision(state.View(), request)
      ensures Consistent(state.View()) ==> Decides(d, this, state.View(), request)
    {
      var v := state.View();
      if Consistent(v) { SelectDecides(this, v, request); }
      var scored := Sort(Candidates(v, v.models, request), RanksBefore);
      d := BuildDecision(scored, v, request);
    }

    /** The same filter, with one posterior sample per candidate: the k-th surviving model uses the
        k-th draw.  The factors shown are still those of the deterministic scorer. */
    function Sampled(v: Projection, models: seq<Model>, request: RouteRequest, draws: nat -> real): seq<Scored> {
      if models == [] then []
      else
        var rest, last := Sampled(v, models[..|models| - 1], request, draws), models[|models| - 1];
        if Available(v, last) then rest + [Sample(v, request, draws(|rest|), last)] else rest
    }

    function Sample(v: Projection, request: RouteRequest, draw: real, m: Model): Scored {
      var bonus := if request.taskType in m.capabilities.taskSuitability then 0.15 else 0.0;
      var load := LoadScore(InflightOf(v, m), MaxInflight(request));
      Scored(draw * 0.70 + load * 0.20 + bonus * 0.10, Rate(v, request, m).factors, m)
    }

    function ThompsonDecision(v: Projection, request: RouteRequest, draws: nat -> real): RoutingDecision {
      BuildDecision(SortBy(Sampled(v, v.models, request, draws), RanksBefore), v, request)
    }

    method SelectThompson(state: State, request: RouteRequest, draws: nat -> real) returns (d: RoutingDecision)
      ensures d == ThompsonDecision(state.View(), request, draws)
      ensures Consistent(state.View()) ==> DecidesBy(d, state.View().models, UsableIn(state.View()),
        SampledTotal(state.View(), request, draws), FactorsBy(this, state.View(), request))
    {
      var v := state.View();
      if Consistent(v) { ThompsonDecides(this, v, request, draws); }
      var scored := Sort(Sampled(v, v.models, request, draws), RanksBefore);
      d := BuildDecision(scored, v, request);
    }

    /** The chain without one model, for the next attempt after that model failed. */
    method FallbackChain(state: State, request: RouteRequest, after: ModelId) returns (chain: seq<ModelId>)
      ensures chain == Exclude(Decision(state.View(), request).fallbackChain, after)
    {
      var d := Select(state, request);
      chain := Exclude(d.fallbackChain, after);
    }

    /** Restrict to a tier when that leaves a usable selection, else use the whole pool. */
    method SelectForTier(state: State, request: RouteRequest, tierIds: seq<ModelId>) returns (d: RoutingDecision)
      ensures d == TierDecision(this, state.View(), request, tierIds)
    {
      if tierIds != [] {
        var restricted := state.View().(models := Retain(state.View().models, tierIds));
        assert restricted.models == [] ==> Candidates(restricted, restricted.models, request) == [];
        if restricted.models != [] {
          var scored := Sort(Candidates(restricted, restricted.models, request), RanksBefore);
          d := BuildDecision(scored, restricted, request);
          if d.selectedModel != "" {
            return;
          }
        }
      } else {
        RetainNothing(state.View().models);
        assert Ranking(state.View().(models := []), request) == [];
      }
      d := Select(state, request);
    }
  }

  function Ids(r: seq<Scored>): seq<ModelId> {
    seq(|r|, i requires 0 <= i < |r| => r[i].model.id)
  }

  function BuildDecision(r: seq<Scored>, v: Projection, request: RouteRequest): RoutingDecision {
    RoutingDecision(
      if r == [] then "" else r[0].model.id,
      if r == [] then 0.0 else r[0].total,
      seq(|r|, i requires 0 <= i < |r| => ModelScore(r[i].model.id, r[i].total, r[i].factors)),
      if r == [] then [] else r[0].factors,
      Ids(r),
      v.CurrentTime().tick,
      request)
  }

  function Exclude(chain: seq<ModelId>, id: ModelId): seq<ModelId> {
    if chain == [] then []
    else
      var rest, last := Exclude(chain[..|chain| - 1], id), chain[|chain| - 1];
      if last == id then rest else rest + [last]
  }

  /** `retain(|m| ids.contains(&m.id))` */
  function Retain(models: seq<Model>, ids: seq<ModelId>): seq<Model> {
    if models == [] then []
    else
      var rest, last := Retain(models[..|models| - 1], ids), models[|models| - 1];
      if last.id in ids then rest + [last] else rest
  }

  /** The part of a ranking whose ids are wanted, in the same order. */
  function KeepRanked(r: seq<Scored>, wanted: ModelId -> bool): seq<Scored> {
    if r == [] then []
    else
      var rest, last := KeepRanked(r[..|r| - 1], wanted), r[|r| - 1];
      if wanted(last.model.id) then rest + [last] else rest
  }

  function OfTier(r: seq<Scored>, ids: seq<ModelId>): seq<Scored> {
    KeepRanked(r, id => id in ids)
  }

  /** The tier's ranking if it has a usable head, else the full ranking. */
  ghost function TierDecision(engine: RouterEngine, v: Projection, request: RouteRequest, ids: seq<ModelId>)
    : RoutingDecision
  {
    var restricted := v.(models := Retain(v.models, ids));
    var part := engine.Ranking(restricted, request);
    if part != [] && part[0].model.id != "" then BuildDecision(part, restricted, request)
    else engine.Decision(v, request)
  }

  // ----- the ranking is the only one ---------------------------------------------------------------

  lemma RankOrder()
    ensures StrictWeakOrder(RanksBefore)
  {
    forall x: Scored, y: Scored ensures RanksBefore(x, y) ==> !RanksBefore(y, x) {
      LexTotal(x.model.id, y.model.id);
    }
    forall x: Scored, y: Scored, z: Scored | !RanksBefore(x, y) && !RanksBefore(y, z) ensures !RanksBefore(x, z) {
      LexTotal(x.model.id, y.model.id);
      LexTotal(y.model.id, z.model.id);
      LexTotal(x.model.id, z.model.id);
      if RanksBefore(x, z) && LexLess(y.model.id, x.model.id) && LexLess(z.model.id, y.model.id) {
        LexTransitive(z.model.id, y.model.id, x.model.id);
      }
    }
  }

  ghost predicate DistinctScored(r: seq<Scored>) {
    forall i, j :: 0 <= i < j < |r| ==> r[i].model.id != r[j].model.id
  }

  /** What a ranking of a state has to be: strictly ordered, and made of exactly the rated available models. */
  ghost predicate IsRanking(engine: RouterEngine, v: Projection, request: RouteRequest, r: seq<Scored>) {
    && StrictlyOrdered(r, RanksBefore)
    && (forall x :: x in r <==> x.model in v.models && Available(v, x.model) && x == engine.Rate(v, request, x.model))
  }

  lemma {:induction false} CandidatesAre(engine: RouterEngine, v: Projection, models: seq<Model>, request: RouteRequest)
    ensures var c := engine.Candidates(v, models, request);
      forall x :: x in c <==> x.model in models && Available(v, x.model) && x == engine.Rate(v, request, x.model)
    ensures DistinctIds(models) ==> DistinctScored(engine.Candidates(v, models, request))
  {
    if models != [] {
      var front, last := models[..|models| - 1], models[|models| - 1];
      CandidatesAre(engine, v, front, request);
      assert models == front + [last];
      var c := engine.Candidates(v, front, request);
      if DistinctIds(models) {
        forall i | 0 <= i < |c| ensures c[i].model.id != last.id {
          assert c[i] in c;
          assert c[i].model in front;
        }
      }
    }
  }

  lemma DistinctSurvivesSort(c: seq<Scored>, r: seq<Scored>)
    requires DistinctScored(c) && multiset(c) == multiset(r)
    ensures DistinctScored(r)
  {
    forall i, j | 0 <= i < j < |r| ensures r[i].model.id != r[j].model.id {
      if r[i].model.id == r[j].model.id {
        SameElements(c, r);
        assert r[i] in c && r[j] in c;
        var a :| 0 <= a < |c| && c[a] == r[i];
        var b :| 0 <= b < |c| && c[b] == r[j];
        assert a == b;
        TwiceInMultiset(r, i, j);
        OnceInMultiset(c, a);
      }
    }
  }

  lemma TwiceInMultiset<T>(s: seq<T>, i: nat, j: nat)
    requires i < j < |s| && s[i] == s[j]
    ensures multiset(s)[s[i]] >= 2
  {
    assert s == s[..j] + [s[j]] + s[j + 1..];
    assert s[i] in s[..j];
  }

  lemma OnceInMultiset(c: seq<Scored>, a: nat)
    requires a < |c| && DistinctScored(c)
    ensures multiset(c)[c[a]] == 1
  {
    assert c == c[..a] + [c[a]] + c[a + 1..];
    assert c[a] !in c[..a] && c[a] !in c[a + 1..];
  }

  lemma RankedStrictly(c: seq<Scored>)
    requires DistinctScored(c)
    ensures StrictlyOrdered(SortBy(c, RanksBefore), RanksBefore)
  {
    var r := SortBy(c, RanksBefore);
    RankOrder();
    SortOrders(c, RanksBefore);
    SortPermutes(c, RanksBefore);
    DistinctSurvivesSort(c, r);
    forall i, j | 0 <= i < j < |r| ensures RanksBefore(r[i], r[j]) {
      LexTotal(r[i].model.id, r[j].model.id);
    }
  }

  /** With distinct ids, as in every reachable state, the router's ranking is a ranking, and it is the only one. */
  lemma RankingExactly(engine: RouterEngine, v: Projection, request: RouteRequest, r: seq<Scored>)
    requires DistinctIds(v.models)
    ensures IsRanking(engine, v, request, r) <==> r == engine.Ranking(v, request)
  {
    var c, own := engine.Candidates(v, v.models, request), engine.Ranking(v, request);
    CandidatesAre(engine, v, v.models, request);
    RankedStrictly(c);
    SortPermutes(c, RanksBefore);
    SameElements(own, c);
    RankOrder();
    if IsRanking(engine, v, request, r) { OrderIsUnique(r, own, RanksBefore); }
  }

  /** Selection does not depend on the order in which models were registered. */
  lemma OrderIndependent(engine: RouterEngine, v: Projection, v': Projection, request: RouteRequest)
    requires DistinctIds(v.models) && DistinctIds(v'.models) && multiset(v.models) == multiset(v'.models)
    requires v.health == v'.health && v.inflight == v'.inflight && v.Clock() == v'.Clock()
    ensures engine.Decision(v, request) == engine.Decision(v', request)
  {
    var r := engine.Ranking(v, request);
    RankingExactly(engine, v, request, r);
    SameElements(v.models, v'.models);
    forall x
      ensures x in r <==> x.model in v'.models && Available(v', x.model) && x == engine.Rate(v', request, x.model)
    {
    }
    RankingExactly(engine, v', request, r);
  }

  /** The chain lists every registered model that is not garbage, once, and nothing else. */
  lemma ChainMembership(engine: RouterEngine, v: Projection, request: RouteRequest)
    requires Consistent(v)
    ensures var chain := engine.Decision(v, request).fallbackChain;
      && (forall id :: id in chain <==> id in v.health && !v.health[id].garbage)
      && (forall i, j :: 0 <= i < j < |chain| ==> chain[i] != chain[j])
  {
    var r := engine.Ranking(v, request);
    var chain := Ids(r);
    RankingExactly(engine, v, request, r);
    forall id ensures id in chain <==> id in v.health && !v.health[id].garbage {
      if id in chain {
        var i :| 0 <= i < |chain| && chain[i] == id;
        assert r[i] in r;
      }
      if id in v.health && !v.health[id].garbage {
        var k :| 0 <= k < |v.models| && v.models[k].id == id;
        var x := engine.Rate(v, request, v.models[k]);
        assert x in r;
        var i :| 0 <= i < |r| && r[i] == x;
        assert chain[i] == id;
      }
    }
    forall i, j | 0 <= i < j < |chain| ensures chain[i] != chain[j] {
      var a, b := r[i], r[j];
      assert a in r && b in r;
      assert RanksBefore(a, b);
      if a.model.id == b.model.id { LexTotal(a.model.id, a.model.id); }
    }
  }

  // ----- what a decision says --------------------------------------------------------------------------

  /** Higher total first, then the smaller id. */
  predicate Precedes(x: ModelScore, y: ModelScore) {
    x.total > y.total || (x.total == y.total && LexLess(x.modelId, y.modelId))
  }

  /** The score is that of a usable model. */
  ghost predicate TellsOne(
    s: ModelScore, models: seq<Model>, usable: Model -> bool, total: Model -> real, factors: Model -> seq<ScoreFactor>)
  {
    exists m :: m in models && usable(m) && s == ModelScore(m.id, total(m), factors(m))
  }

  /** A decision over the usable ones among these models, rated by `total` and explained by `factors`: the
      chain and the scores list each of them once, best first; the selection is the first of them, and none
      is better. */
  ghost predicate DecidesBy(
    d: RoutingDecision, models: seq<Model>,
    usable: Model -> bool, total: Model -> real, factors: Model -> seq<ScoreFactor>)
  {
    && |d.scores| == |d.fallbackChain|
    && (forall i :: 0 <= i < |d.scores| ==>
          d.scores[i].modelId == d.fallbackChain[i] && TellsOne(d.scores[i], models, usable, total, factors))
    && (forall m :: m in models && usable(m) ==> m.id in d.fallbackChain)
    && (forall i, j :: 0 <= i < j < |d.scores| ==> Precedes(d.scores[i], d.scores[j]))
    && (d.scores == [] ==> d.selectedModel == "" && d.score == 0.0 && d.reasoning == [])
    && (d.scores != [] ==>
          d.selectedModel == d.fallbackChain[0] && ModelScore(d.selectedModel, d.score, d.reasoning) == d.scores[0])
    && (forall m :: m in models && usable(m) ==>
          total(m) <= d.score && (total(m) == d.score ==> !LexLess(m.id, d.selectedModel)))
  }

  function UsableIn(v: Projection): Model -> bool {
    (m: Model) => m.id in v.health && !v.health[m.id].garbage
  }

  function TotalBy(engine: RouterEngine, v: Projection, request: RouteRequest): Model -> real {
    (m: Model) => if m.id in v.health && m.id in v.inflight
         then Score(engine.weights, m, v.health[m.id], v.inflight[m.id], request, engine.root).0 else 0.0
  }

  function FactorsBy(engine: RouterEngine, v: Projection, request: RouteRequest): Model -> seq<ScoreFactor> {
    (m: Model) => if m.id in v.health && m.id in v.inflight
         then Score(engine.weights, m, v.health[m.id], v.inflight[m.id], request, engine.root).1 else []
  }

  /** The decision over all usable models of a state, by their scores. */
  ghost predicate Decides(d: RoutingDecision, engine: RouterEngine, v: Projection, request: RouteRequest) {
    && DecidesBy(d, v.models, UsableIn(v), TotalBy(engine, v, request), FactorsBy(engine, v, request))
    && d.timestamp == v.Clock() + 1 && d.request == request
  }

  /** What makes a list the ranking of the usable models. */
  ghost predicate Ranks(
    r: seq<Scored>, models: seq<Model>, usable: Model -> bool, total: Model -> real, factors: Model -> seq<ScoreFactor>)
  {
    && StrictlyOrdered(r, RanksBefore)
    && (forall x :: x in r <==>
          x.model in models && usable(x.model) && x == Scored(total(x.model), factors(x.model), x.model))
  }

  lemma BuildDecides(
    r: seq<Scored>, v: Projection, request: RouteRequest,
    models: seq<Model>, usable: Model -> bool, total: Model -> real, factors: Model -> seq<ScoreFactor>)
    requires Ranks(r, models, usable, total, factors)
    ensures DecidesBy(BuildDecision(r, v, request), models, usable, total, factors)
  {
    var d := BuildDecision(r, v, request);
    forall i | 0 <= i < |d.scores|
      ensures d.scores[i].modelId == d.fallbackChain[i] && TellsOne(d.scores[i], models, usable, total, factors)
    {
      assert r[i] in r;
      var m := r[i].model;
      assert m in models && usable(m);
    }
    forall i, j | 0 <= i < j < |d.scores| ensures Precedes(d.scores[i], d.scores[j]) {
      assert RanksBefore(r[i], r[j]);
    }
    forall m | m in models && usable(m)
      ensures m.id in d.fallbackChain
      ensures total(m) <= d.score && (total(m) == d.score ==> !LexLess(m.id, d.selectedModel))
    {
      var x := Scored(total(m), factors(m), m);
      assert x in r;
      var i :| 0 <= i < |r| && r[i] == x;
      assert d.fallbackChain[i] == m.id;
      NotBetter(r, i);
    }
  }

  lemma NotBetter(r: seq<Scored>, i: nat)
    requires StrictlyOrdered(r, RanksBefore) && i < |r|
    ensures r[i].total <= r[0].total && (r[i].total == r[0].total ==> !LexLess(r[i].model.id, r[0].model.id))
  {
    LexTotal(r[i].model.id, r[0].model.id);
    if i > 0 { assert RanksBefore(r[0], r[i]); }
  }

  lemma RankingRanks(engine: RouterEngine, v: Projection, request: RouteRequest)
    requires Consistent(v)
    ensures Ranks(engine.Ranking(v, request), v.models,
      UsableIn(v), TotalBy(engine, v, request), FactorsBy(engine, v, request))
  {
    var r := engine.Ranking(v, request);
    RankingExactly(engine, v, request, r);
  }

  /** Selection in every consistent state, as all reachable ones are. */
  lemma SelectDecides(engine: RouterEngine, v: Projection, request: RouteRequest)
    requires Consistent(v)
    ensures Decides(engine.Decision(v, request), engine, v, request)
  {
    RankingRanks(engine, v, request);
    BuildDecides(engine.Ranking(v, request), v, request, v.models,
      UsableIn(v), TotalBy(engine, v, request), FactorsBy(engine, v, request));
  }

  /** The usable models of a tier. */
  function UsableOf(v: Projection, ids: seq<ModelId>): Model -> bool {
    (m: Model) => m.id in v.health && !v.health[m.id].garbage && m.id in ids
  }

  /** Tier selection: the decision over the usable models of the tier, unless that selects nothing or the
      empty id; then the decision over all usable models. */
  lemma TierDecides(engine: RouterEngine, v: Projection, request: RouteRequest, ids: seq<ModelId>)
    returns (tier: RoutingDecision)
    requires Consistent(v)
    ensures DecidesBy(tier, v.models, UsableOf(v, ids), TotalBy(engine, v, request), FactorsBy(engine, v, request))
    ensures tier.timestamp == v.Clock() + 1 && tier.request == request
    ensures var d := TierDecision(engine, v, request, ids);
      if tier.selectedModel != "" then d == tier else Decides(d, engine, v, request)
  {
    var full := engine.Ranking(v, request);
    var part := OfTier(full, ids);
    tier := BuildDecision(part, v, request);
    RankingRanks(engine, v, request);
    KeepRankedOrder(full, id => id in ids);
    BuildDecides(part, v, request, v.models,
      UsableOf(v, ids), TotalBy(engine, v, request), FactorsBy(engine, v, request));
    TierExactly(engine, v, request, ids);
    SelectDecides(engine, v, request);
  }

  /** How many usable models are registered before this one. */
  function UsableBefore(usable: Model -> bool, models: seq<Model>, id: ModelId): nat {
    if models == [] || models[0].id == id then 0
    else (if usable(models[0]) then 1 else 0) + UsableBefore(usable, models[1..], id)
  }

  /** A sampled total: seven tenths of the model's own draw, two tenths of the free capacity, and fifteen
      thousandths for suiting the request's task. */
  function SampledTotal(v: Projection, request: RouteRequest, draws: nat -> real): Model -> real {
    (m: Model) => WithDraw(v, request, draws(UsableBefore(UsableIn(v), v.models, m.id)), m)
  }

  function WithDraw(v: Projection, request: RouteRequest, draw: real, m: Model): real {
    draw * 0.7
    + (if m.id in v.inflight then LoadScore(v.inflight[m.id], MaxInflight(request)) * 0.2 else 0.0)
    + (if request.taskType in m.capabilities.taskSuitability then 0.015 else 0.0)
  }

  lemma {:induction false} UsableBeforeSnoc(usable: Model -> bool, front: seq<Model>, last: Model, id: ModelId)
    ensures UsableBefore(usable, front + [last], id)
      == UsableBefore(usable, front, id) + if !HasModel(front, id) && last.id != id && usable(last) then 1 else 0
  {
    if front == [] {
      assert front + [last] == [last] && [last][1..] == [];
    } else {
      assert (front + [last])[1..] == front[1..] + [last];
      if front[0].id == id {
        assert HasModel(front, id);
      } else {
        UsableBeforeSnoc(usable, front[1..], last, id);
      }
    }
  }

  lemma NotInFront(front: seq<Model>, last: Model)
    requires DistinctIds(front + [last])
    ensures !HasModel(front, last.id) && DistinctIds(front)
  {
    assert (front + [last])[|front|] == last;
    assert forall i :: 0 <= i < |front| ==> (front + [last])[i] == front[i];
  }

  /** A list of the samples of the usable models, each once. */
  ghost predicate Samples(t: seq<Scored>, models: seq<Model>, usable: Model -> bool, sample: Model -> Scored) {
    && (forall x :: x in t <==> x.model in models && usable(x.model) && x == sample(x.model))
    && DistinctScored(t)
  }

  lemma SamplesSnoc(
    t: seq<Scored>, front: seq<Model>, last: Model,
    usable: Model -> bool, sample: Model -> Scored, sample': Model -> Scored)
    requires Samples(t, front, usable, sample) && !HasModel(front, last.id)
    requires sample'(last).model == last && forall m :: m in front ==> sample(m) == sample'(m)
    ensures Samples(t + if usable(last) then [sample'(last)] else [], front + [last], usable, sample')
  {
    var longer := t + if usable(last) then [sample'(last)] else [];
    assert forall i :: 0 <= i < |front| ==> front[i].id != last.id;
    forall x ensures x in longer <==> x.model in front + [last] && usable(x.model) && x == sample'(x.model) {
      if x.model in front { assert x in t <==> usable(x.model) && x == sample(x.model); }
    }
    forall i | 0 <= i < |t| ensures t[i].model.id != last.id {
      assert t[i] in t;
      var k :| 0 <= k < |front| && front[k] == t[i].model;
    }
  }

  function SampleOf(
    engine: RouterEngine, v: Projection, models: seq<Model>, request: RouteRequest, draws: nat -> real): Model -> Scored
  {
    (m: Model) => SampleWith(engine, v, request, draws(UsableBefore(UsableIn(v), models, m.id)), m)
  }

  lemma SampleOfIs(
    engine: RouterEngine, v: Projection, models: seq<Model>, request: RouteRequest, draws: nat -> real, m: Model)
    ensures SampleOf(engine, v, models, request, draws)(m)
      == SampleWith(engine, v, request, draws(UsableBefore(UsableIn(v), models, m.id)), m)
  {
  }

  function SampleWith(engine: RouterEngine, v: Projection, request: RouteRequest, draw: real, m: Model): Scored {
    Scored(WithDraw(v, request, draw, m), FactorsBy(engine, v, request)(m), m)
  }

  lemma {:induction false} UsableCount(
    engine: RouterEngine, v: Projection, models: seq<Model>, id: ModelId, request: RouteRequest, draws: nat -> real)
    requires !HasModel(models, id) && forall m :: m in models ==> m.id in v.health
    ensures UsableBefore(UsableIn(v), models, id) == |engine.Sampled(v, models, request, draws)|
  {
    if models != [] {
      var front, last := models[..|models| - 1], models[|models| - 1];
      assert models == front + [last];
      UsableCount(engine, v, front, id, request, draws);
      UsableBeforeSnoc(UsableIn(v), front, last, id);
      assert last in models;
    }
  }

  lemma {:induction false} SampledAre(
    engine: RouterEngine, v: Projection, models: seq<Model>, request: RouteRequest, draws: nat -> real)
    requires DistinctIds(models) && forall m :: m in models ==> m.id in v.health && m.id in v.inflight
    ensures Samples(engine.Sampled(v, models, request, draws), models,
      UsableIn(v), SampleOf(engine, v, models, request, draws))
  {
    if models != [] {
      var front, last := models[..|models| - 1], models[|models| - 1];
      assert models == front + [last] && last in models && forall m :: m in front ==> m in models;
      NotInFront(front, last);
      SampledAre(engine, v, front, request, draws);
      forall m | m in front
        ensures SampleOf(engine, v, front, request, draws)(m) == SampleOf(engine, v, models, request, draws)(m)
      {
        SameSample(engine, v, front, last, request, draws, m);
      }
      LastSample(engine, v, front, last, request, draws);
      SampleOfIs(engine, v, models, request, draws, last);
      SamplesSnoc(engine.Sampled(v, front, request, draws), front, last, UsableIn(v),
        SampleOf(engine, v, front, request, draws), SampleOf(engine, v, models, request, draws));
    }
  }

  lemma SameSample(
    engine: RouterEngine, v: Projection, front: seq<Model>, last: Model,
    request: RouteRequest, draws: nat -> real, m: Model)
    requires m in front
    ensures SampleOf(engine, v, front, request, draws)(m) == SampleOf(engine, v, front + [last], request, draws)(m)
  {
    var i :| 0 <= i < |front| && front[i] == m;
    assert HasModel(front, m.id);
    UsableBeforeSnoc(UsableIn(v), front, last, m.id);
  }

  lemma LastSample(
    engine: RouterEngine, v: Projection, front: seq<Model>, last: Model, request: RouteRequest, draws: nat -> real)
    requires last.id in v.health && last.id in v.inflight && !HasModel(front, last.id)
    requires forall m :: m in front ==> m.id in v.health
    ensures engine.Sampled(v, front + [last], request, draws) == engine.Sampled(v, front, request, draws)
      + if UsableIn(v)(last) then [SampleOf(engine, v, front + [last], request, draws)(last)] else []
  {
    var t := engine.Sampled(v, front, request, draws);
    assert UsableBefore(UsableIn(v), front + [last], last.id) == |t| by {
      UsableCount(engine, v, front, last.id, request, draws);
      UsableBeforeSnoc(UsableIn(v), front, last, last.id);
    }
    SampleOfIs(engine, v, front + [last], request, draws, last);
  }

  lemma {:induction false} ThompsonRanks(engine: RouterEngine, v: Projection, request: RouteRequest, draws: nat -> real)
    requires DistinctIds(v.models) && forall m :: m in v.models ==> m.id in v.health && m.id in v.inflight
    ensures Ranks(SortBy(engine.Sampled(v, v.models, request, draws), RanksBefore), v.models,
      UsableIn(v), SampledTotal(v, request, draws), FactorsBy(engine, v, request))
  {
    var t, sample := engine.Sampled(v, v.models, request, draws), SampleOf(engine, v, v.models, request, draws);
    SampledAre(engine, v, v.models, request, draws);
    RankedStrictly(t);
    SortPermutes(t, RanksBefore);
    SameElements(SortBy(t, RanksBefore), t);
    forall m: Model
      ensures sample(m) == Scored(SampledTotal(v, request, draws)(m), FactorsBy(engine, v, request)(m), m)
    {
      SampleOfIs(engine, v, v.models, request, draws, m);
    }
  }

  /** Thompson selection: the same decision, by the sampled totals. */
  lemma ThompsonDecides(engine: RouterEngine, v: Projection, request: RouteRequest, draws: nat -> real)
    requires Consistent(v)
    ensures var d := engine.ThompsonDecision(v, request, draws);
      && DecidesBy(d, v.models, UsableIn(v), SampledTotal(v, request, draws), FactorsBy(engine, v, request))
      && d.timestamp == v.Clock() + 1 && d.request == request
  {
    ThompsonRanks(engine, v, request, draws);
    BuildDecides(SortBy(engine.Sampled(v, v.models, request, draws), RanksBefore), v, request, v.models,
      UsableIn(v), SampledTotal(v, request, draws), FactorsBy(engine, v, request));
  }

  // ----- restriction ---------------------------------------------------------------------------------

  lemma {:induction false} RetainNothing(models: seq<Model>)
    ensures Retain(models, []) == []
  {
    if models != [] { RetainNothing(models[..|models| - 1]); }
  }

  lemma {:induction false} RetainKeeps(models: seq<Model>, ids: seq<ModelId>)
    ensures forall m :: m in Retain(models, ids) <==> m in models && m.id in ids
    ensures DistinctIds(models) ==> DistinctIds(Retain(models, ids))
  {
    if models != [] {
      var front, last := models[..|models| - 1], models[|models| - 1];
      RetainKeeps(front, ids);
      assert models == front + [last];
    }
  }

  lemma {:induction false} KeepRankedOrder(r: seq<Scored>, wanted: ModelId -> bool)
    ensures forall x :: x in KeepRanked(r, wanted) <==> x in r && wanted(x.model.id)
    ensures StrictlyOrdered(r, RanksBefore) ==> StrictlyOrdered(KeepRanked(r, wanted), RanksBefore)
  {
    if r != [] {
      var front, last := r[..|r| - 1], r[|r| - 1];
      KeepRankedOrder(front, wanted);
      var kept := KeepRanked(front, wanted);
      assert r == front + [last];
      if StrictlyOrdered(r, RanksBefore) {
        forall i | 0 <= i < |kept| ensures RanksBefore(kept[i], last) {
          assert kept[i] in kept && kept[i] in front;
        }
      }
    }
  }

  /** Restricting the models and then ranking is ranking and then restricting. */
  lemma RestrictionCommutes(
    engine: RouterEngine, v: Projection, kept: seq<Model>, request: RouteRequest, wanted: ModelId -> bool)
    requires DistinctIds(v.models) && DistinctIds(kept)
    requires forall m :: m in kept <==> m in v.models && wanted(m.id)
    ensures engine.Ranking(v.(models := kept), request) == KeepRanked(engine.Ranking(v, request), wanted)
  {
    var full, restricted := engine.Ranking(v, request), v.(models := kept);
    var part := KeepRanked(full, wanted);
    RankingExactly(engine, v, request, full);
    KeepRankedOrder(full, wanted);
    forall x
      ensures x in part <==>
        x.model in kept && Available(restricted, x.model) && x == engine.Rate(restricted, request, x.model)
    {
      assert engine.Rate(restricted, request, x.model) == engine.Rate(v, request, x.model);
    }
    RankingExactly(engine, restricted, request, part);
  }

  /** Tier selection: the full ranking filtered to the tier, unless that is empty or headed by the
      empty id, in which case the unrestricted decision. */
  lemma TierExactly(engine: RouterEngine, v: Projection, request: RouteRequest, ids: seq<ModelId>)
    requires DistinctIds(v.models)
    ensures var part := OfTier(engine.Ranking(v, request), ids);
      TierDecision(engine, v, request, ids) ==
      if part != [] && part[0].model.id != "" then BuildDecision(part, v, request) else engine.Decision(v, request)
  {
    RetainKeeps(v.models, ids);
    RestrictionCommutes(engine, v, Retain(v.models, ids), request, id => id in ids);
  }

  /** The promise, and exactly when it is kept: the tier's share of the ranking is used whenever there
      is one, unless that share is headed by a model whose id is the empty string and is not already
      the whole ranking. */
  lemma TierPromise(engine: RouterEngine, v: Projection, request: RouteRequest, ids: seq<ModelId>)
    requires DistinctIds(v.models) && OfTier(engine.Ranking(v, request), ids) != []
    ensures var full, part := engine.Ranking(v, request), OfTier(engine.Ranking(v, request), ids);
      TierDecision(engine, v, request, ids).fallbackChain == Ids(part) <==> part[0].model.id != "" || part == full
  {
    var full := engine.Ranking(v, request);
    TierExactly(engine, v, request, ids);
    KeepRankedShorter(full, id => id in ids);
    var part := OfTier(full, ids);
    if Ids(full) == Ids(part) { assert |Ids(full)| == |full| && |Ids(part)| == |part|; }
  }

  lemma {:induction false} KeepRankedShorter(r: seq<Scored>, wanted: ModelId -> bool)
    ensures |KeepRanked(r, wanted)| <= |r|
    ensures |KeepRanked(r, wanted)| == |r| ==> KeepRanked(r, wanted) == r
  {
    if r != [] {
      KeepRankedShorter(r[..|r| - 1], wanted);
      assert r == r[..|r| - 1] + [r[|r| - 1]];
    }
  }

  /** The promise is broken whenever a model under the empty id and another one are both available: the
      first is a tier that selection ignores. */
  lemma TierIgnored(engine: RouterEngine, v: Projection, unnamed: Model, other: Model, request: RouteRequest)
    requires DistinctIds(v.models) && unnamed in v.models && other in v.models
    requires Available(v, unnamed) && Available(v, other) && unnamed.id == "" && other.id != ""
    ensures var part := OfTier(engine.Ranking(v, request), [""]);
      part != [] && TierDecision(engine, v, request, [""]).fallbackChain != Ids(part)
  {
    var full, part := engine.Ranking(v, request), OfTier(engine.Ranking(v, request), [""]);
    RankingExactly(engine, v, request, full);
    KeepRankedOrder(full, id => id in [""]);
    var x, y := engine.Rate(v, request, unnamed), engine.Rate(v, request, other);
    assert x in full && y in full;
    assert x in part && y !in part;
    assert part[0] in part;
    TierPromise(engine, v, request, [""]);
  }

  /** Registering the two is enough. */
  lemma TierIgnoredInRun(engine: RouterEngine, unnamed: Model, other: Model, request: RouteRequest)
    requires unnamed.id == "" && other.id != ""
    ensures var v := Replay([ModelAdded(unnamed, Bundled), ModelAdded(other, Bundled)]);
      var part := OfTier(engine.Ranking(v, request), [""]);
      part != [] && TierDecision(engine, v, request, [""]).fallbackChain != Ids(part)
  {
    var v := TwoRegistered(unnamed, other);
    TierIgnored(engine, v, unnamed, other, request);
  }

  lemma TwoRegistered(a: Model, b: Model) returns (v: Projection)
    requires a.id != b.id
    ensures v == Replay([ModelAdded(a, Bundled), ModelAdded(b, Bundled)])
    ensures DistinctIds(v.models) && a in v.models && b in v.models && Available(v, a) && Available(v, b)
  {
    var first, log := [ModelAdded(a, Bundled)], [ModelAdded(a, Bundled), ModelAdded(b, Bundled)];
    v := Replay(log);
    assert first[..0] == [] && log[..1] == first;
    assert Replay(first).models == [a] && Replay(first).health == map[a.id := FRESH];
    assert v.models == [a, b];
  }

  /** When no registered model has an empty id, tier selection comes back empty-handed exactly when every
      registered model is garbage. */
  lemma TierSelectsSomething(engine: RouterEngine, v: Projection, request: RouteRequest, ids: seq<ModelId>)
    requires Consistent(v) && "" !in v.health
    ensures TierDecision(engine, v, request, ids).selectedModel == "" <==>
      forall id :: id in v.health ==> v.health[id].garbage
  {
    var r := engine.Ranking(v, request);
    TierExactly(engine, v, request, ids);
    ChainMembership(engine, v, request);
    var chain := engine.Decision(v, request).fallbackChain;
    assert |chain| == |r|;
    if r != [] {
      assert chain[0] in chain;
    } else {
      assert chain == [];
    }
  }

  lemma {:induction false} ExcludeIds(r: seq<Scored>, id: ModelId)
    ensures Exclude(Ids(r), id) == Ids(KeepRanked(r, OtherThan(id)))
  {
    if r != [] {
      var front, last := r[..|r| - 1], r[|r| - 1];
      ExcludeIds(front, id);
      assert Ids(r)[..|r| - 1] == Ids(front);
    }
  }

  /** The fallback chain after a failure is what would be selected from if that model were removed. */
  lemma FallbackIsRemoval(engine: RouterEngine, v: Projection, request: RouteRequest, id: ModelId, reason: string)
    requires Consistent(v)
    ensures Exclude(engine.Decision(v, request).fallbackChain, id)
      == engine.Decision(Apply(v, ModelRemoved(id, reason)), request).fallbackChain
  {
    RankingAfterRemoval(engine, v, request, id, reason);
    ExcludeIds(engine.Ranking(v, request), id);
  }

  function OtherThan(id: ModelId): ModelId -> bool {
    x => x != id
  }

  lemma RankingAfterRemoval(engine: RouterEngine, v: Projection, request: RouteRequest, id: ModelId, reason: string)
    requires Consistent(v)
    ensures engine.Ranking(Apply(v, ModelRemoved(id, reason)), request)
      == KeepRanked(engine.Ranking(v, request), OtherThan(id))
  {
    var kept := Without(v.models, id);
    WithoutIsRetain(v.models, id);
    ForgottenHealth(engine, v, kept, request, id);
    RestrictionCommutes(engine, v, kept, request, OtherThan(id));
  }

  /** Dropping the entries of a model that is no longer listed changes no ranking. */
  lemma ForgottenHealth(engine: RouterEngine, v: Projection, kept: seq<Model>, request: RouteRequest, id: ModelId)
    requires !HasModel(kept, id)
    ensures engine.Ranking(v.(models := kept), request)
      == engine.Ranking(v.(models := kept, health := v.health - {id}, inflight := v.inflight - {id}), request)
  {
    var hidden := v.(models := kept);
    var removed := v.(models := kept, health := v.health - {id}, inflight := v.inflight - {id});
    forall m | m in kept ensures m.id != id {
      var i :| 0 <= i < |kept| && kept[i] == m;
    }
    SameCandidates(engine, hidden, removed, kept, request);
  }

  lemma {:induction false} SameCandidates(
    engine: RouterEngine, v: Projection, v': Projection, models: seq<Model>, request: RouteRequest)
    requires forall m :: m in models ==>
      HealthOf(v, m) == HealthOf(v', m) && Available(v, m) == Available(v', m) && InflightOf(v, m) == InflightOf(v', m)
    ensures engine.Candidates(v, models, request) == engine.Candidates(v', models, request)
  {
    if models != [] {
      var front, last := models[..|models| - 1], models[|models| - 1];
      SameCandidates(engine, v, v', front, request);
      assert last in models;
      assert engine.Rate(v, request, last) == engine.Rate(v', request, last);
    }
  }

  // ----- Thompson selection --------------------------------------------------------------------------

  lemma {:induction false} SampledModels(
    engine: RouterEngine, v: Projection, models: seq<Model>, request: RouteRequest, draws: nat -> real)
    ensures Models(engine.Sampled(v, models, request, draws)) == Models(engine.Candidates(v, models, request))
  {
    if models != [] {
      var front, last := models[..|models| - 1], models[|models| - 1];
      SampledModels(engine, v, front, request, draws);
      var c, t := engine.Candidates(v, front, request), engine.Sampled(v, front, request, draws);
      forall x: Scored | x.model == last
        ensures Models(c + [x]) == Models(c) + [last] && Models(t + [x]) == Models(t) + [last]
      {
      }
    }
  }

  function Models(r: seq<Scored>): seq<Model> {
    seq(|r|, i requires 0 <= i < |r| => r[i].model)
  }

  lemma {:induction false} InsertModels(x: Scored, s: seq<Scored>)
    ensures multiset(Ids(Insert(x, s, RanksBefore))) == multiset(Ids(s)) + multiset{x.model.id}
  {
    if s == [] || !RanksBefore(x, s[|s| - 1]) {
      assert Ids(s + [x]) == Ids(s) + [x.model.id];
    } else {
      var front, last := s[..|s| - 1], s[|s| - 1];
      InsertModels(x, front);
      assert Ids(Insert(x, front, RanksBefore) + [last]) == Ids(Insert(x, front, RanksBefore)) + [last.model.id];
      assert Ids(s) == Ids(front) + [last.model.id];
    }
  }

  lemma {:induction false} SortedIds(c: seq<Scored>)
    ensures multiset(Ids(SortBy(c, RanksBefore))) == multiset(Ids(c))
  {
    if c != [] {
      SortedIds(c[..|c| - 1]);
      InsertModels(c[|c| - 1], SortBy(c[..|c| - 1], RanksBefore));
      assert Ids(c) == Ids(c[..|c| - 1]) + [c[|c| - 1].model.id];
    }
  }

  /** Whatever the samples, Thompson selection only permutes the deterministic chain. */
  lemma ThompsonPermutes(engine: RouterEngine, v: Projection, request: RouteRequest, draws: nat -> real)
    ensures multiset(engine.ThompsonDecision(v, request, draws).fallbackChain)
         == multiset(engine.Decision(v, request).fallbackChain)
  {
    var c, t := engine.Candidates(v, v.models, request), engine.Sampled(v, v.models, request, draws);
    SampledModels(engine, v, v.models, request, draws);
    assert |t| == |Models(t)| && |c| == |Models(c)|;
    assert Ids(c) == Ids(t) by {
      forall i | 0 <= i < |c| ensures Ids(c)[i] == Ids(t)[i] {
        assert Models(c)[i] == Models(t)[i];
      }
    }
    SortedIds(c);
    SortedIds(t);
  }

  // ----- selection and validation, over every reachable state ----------------------------------------

  /** Recording a selection of any state never fails validation. */
  lemma SelectionValidates(engine: RouterEngine, v: Projection, request: RouteRequest, why: RoutingReason)
    requires IsSqrt(engine.root) && engine.weights == DEFAULT_WEIGHTS
    ensures var d := engine.Decision(v, request);
      && 0.0 <= d.score < 1.4 + 1.0 / 95.0
      && Validate(ModelSelected(d.selectedModel, request, d.score, why)) == None
  {
    var r := engine.Ranking(v, request);
    if r != [] { RankedAreRated(engine, v, request, 0); }
  }

  lemma RankedAreRated(engine: RouterEngine, v: Projection, request: RouteRequest, i: nat)
    requires IsSqrt(engine.root) && engine.weights == DEFAULT_WEIGHTS && i < |engine.Ranking(v, request)|
    ensures 0.0 < engine.Ranking(v, request)[i].total < 1.4 + 1.0 / 95.0
  {
    var r, c := engine.Ranking(v, request), engine.Candidates(v, v.models, request);
    SortPermutes(c, RanksBefore);
    SameElements(r, c);
    CandidatesAre(engine, v, v.models, request);
    var m := r[i].model;
    assert r[i] in r;
    assert r[i].total == engine.Rate(v, request, m).total;
    ScoreRange(m, HealthOf(v, m), InflightOf(v, m), request, engine.root);
  }

  /** A model with s successes is out of the chain of every request after 6s+5 further failures without a
      success, whatever happens to other models meanwhile ... */
  lemma FailuresExcludeFromChain(
    engine: RouterEngine, log: seq<Event>, m: ModelId, earlier: seq<Event>, later: seq<Event>, request: RouteRequest)
    requires SinceAdded(log, m) == Some(earlier + later) && NoRestart(earlier + later)
    requires Observations(later, m, true) == 0
    requires Count(later, e => FailsModel(e, m)) >= 6 * Observations(earlier, m, true) + 5
    ensures m !in engine.Decision(Replay(log), request).fallbackChain
  {
    FailuresExclude(log, m, earlier, later);
    ReachableConsistent(log);
    ChainMembership(engine, Replay(log), request);
  }

  /** ... and back in it after any one success. */
  lemma SuccessReturnsToChain(engine: RouterEngine, log: seq<Event>, m: ModelId, e: Event, request: RouteRequest)
    requires SinceAdded(log, m).Some? && NoRestart(SinceAdded(log, m).value) && Observes(e, m, true)
    ensures m in engine.Decision(Replay(log + [e]), request).fallbackChain
  {
    SuccessReadmits(log, m, e);
    ReachableConsistent(log + [e]);
    ChainMembership(engine, Replay(log + [e]), request);
  }

  // ----- a run above the documented maximum ------------------------------------------------------------

  function GoodProbes(n: nat, latencyMs: nat): seq<Event> {
    if n == 0 then [] else GoodProbes(n - 1, latencyMs) + [ProbeUpdated(ALL_ROUNDER.id, 1.0, latencyMs)]
  }

  function ProbedRun(n: nat, latencyMs: nat): seq<Event> {
    [ModelAdded(ALL_ROUNDER, Bundled)] + GoodProbes(n, latencyMs)
  }

  /** Every probe finds the model at its best; the average climbs towards the measured latency. */
  lemma {:induction false} AfterGoodProbes(n: nat, latencyMs: nat) returns (average: real)
    requires latencyMs > 0
    ensures (if n == 0 then average == 0.0 else 0.0 < average <= latencyMs as real)
    ensures var v := Replay(ProbedRun(n, latencyMs));
      && v.models == [ALL_ROUNDER] && v.Clock() == 0 && v.inflight == map[ALL_ROUNDER.id := 0]
      && v.health == map[ALL_ROUNDER.id := if n == 0 then FRESH else Champion(n, average)]
  {
    var log := ProbedRun(n, latencyMs);
    if n == 0 {
      assert log == [ModelAdded(ALL_ROUNDER, Bundled)] && log[..0] == [];
      average := 0.0;
    } else {
      var before := AfterGoodProbes(n - 1, latencyMs);
      assert log[..|log| - 1] == ProbedRun(n - 1, latencyMs);
      average := WindowedAvg(before, latencyMs as real, 10);
      AverageBounds(before, latencyMs as real, 10, latencyMs as real);
    }
  }

  /** For every measured latency under 500 ms there is a run of valid events after which the selection of
      that model is scored above the documented 1.40. */
  lemma DocumentedMaximumExceeded(engine: RouterEngine, latencyMs: nat) returns (n: nat)
    requires IsSqrt(engine.root) && engine.weights == DEFAULT_WEIGHTS && 0 < latencyMs < 500
    ensures var log := ProbedRun(n, latencyMs);
      && (forall i :: 0 <= i < |log| ==> Validate(log[i]) == None)
      && engine.Decision(Replay(log), DEMANDING).score > 1.4
  {
    n := EnoughSuccesses(latencyMs as real);
    var average := AfterGoodProbes(n, latencyMs);
    AboveDocumented(n, average, latencyMs as real, engine.root);
    AllValid(n, latencyMs);
    SoleModel(engine, Replay(ProbedRun(n, latencyMs)), DEMANDING, ALL_ROUNDER);
  }

  lemma SoleModel(engine: RouterEngine, v: Projection, request: RouteRequest, m: Model)
    requires v.models == [m] && Available(v, m)
    ensures engine.Decision(v, request).score == engine.Rate(v, request, m).total
  {
    var x := engine.Rate(v, request, m);
    assert engine.Candidates(v, [m], request) == [x] by { assert [m][..0] == []; }
    assert SortBy([x], RanksBefore) == [x] by { assert [x][..0] == []; }
  }

  lemma {:induction false} AllValid(n: nat, latencyMs: nat)
    requires latencyMs > 0
    ensures forall i :: 0 <= i < |ProbedRun(n, latencyMs)| ==> Validate(ProbedRun(n, latencyMs)[i]) == None
  {
    if n > 0 {
      AllValid(n - 1, latencyMs);
      var log, e := ProbedRun(n - 1, latencyMs), ProbeUpdated(ALL_ROUNDER.id, 1.0, latencyMs);
      assert ProbedRun(n, latencyMs) == log + [e];
      assert Validate(e) == None;
    }
  }
}
