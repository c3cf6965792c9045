/** The state transition system.  `State` is updated in place by `Dispatch`, branch for branch as
    the source does it; `Apply` is the same transition on immutable snapshots, organised by what an
    event observes rather than by event kind, and with the square-root-free garbage test.
    u64 and u32 counters are natural numbers: saturation at 2^64 and overflow at 2^32 never occur. */
module Reducers {
  import opened Types
  import opened Health

  datatype Diagnostics = Diagnostics(
    totalCompletions: nat,
    totalFailures: nat,
    totalFallbacks: nat,
    totalDegradations: nat
  )

  /** A snapshot of the whole state. */
  datatype Projection = Projection(
    models: seq<Model>,
    health: map<ModelId, HealthStatus>,
    cache: RoutingCache,
    inflight: map<ModelId, nat>,
    diagnostics: Diagnostics
  ) {
    function CurrentTime(): SequencedInstant {
      InstantAt(Clock())
    }

    function Clock(): nat {
      diagnostics.totalCompletions + diagnostics.totalFailures
    }
  }

  function InstantAt(clock: nat): SequencedInstant {
    SequencedInstant(clock + 1, clock)
  }

  const NO_DIAGNOSTICS := Diagnostics(0, 0, 0, 0)

  const INITIAL := Projection([], map[], RoutingCache(None, None), map[], NO_DIAGNOSTICS)

  function UpdateSuccessRatio(current: real, success: bool): real {
    if success then current * (1.0 - 0.1) + 0.1 else current * (1.0 - 0.1)
  }

  /** The window sizes in use are 20 and 10. */
  type Window = w: nat | w > 1 witness 10

  function WindowedAvg(current: real, newValue: real, window: Window): real
  {
    current * (1.0 - 1.0 / window as real) + newValue * (1.0 / window as real)
  }

  predicate HasModel(models: seq<Model>, id: ModelId) {
    exists i :: 0 <= i < |models| && models[i].id == id
  }

  /** `retain(|m| m.id != id)` */
  function Without(models: seq<Model>, id: ModelId): seq<Model> {
    if models == [] then []
    else
      var rest := Without(models[..|models| - 1], id);
      var last := models[|models| - 1];
      if last.id == id then rest else rest + [last]
  }

  /** `health.garbage = is_garbage(health)` */
  method Recheck(h: HealthStatus, root: real -> real) returns (h': HealthStatus)
    requires IsSqrt(root)
    ensures h' == h.(garbage := Garbage(h))
  {
    GarbageIsPolynomial(h, root);
    h' := h.(garbage := IsGarbage(h, root));
  }

  // ----- the in-place reducer ------------------------------------------------------------------

  class State {
    var models: seq<Model>
    var health: map<ModelId, HealthStatus>
    var cache: RoutingCache
    var inflight: map<ModelId, nat>
    var diagnostics: Diagnostics

    function View(): Projection
      reads this
    {
      Projection(models, health, cache, inflight, diagnostics)
    }

    function CurrentTime(): SequencedInstant
      reads this
    {
      SequencedInstant(
        diagnostics.totalCompletions + diagnostics.totalFailures + 1,
        diagnostics.totalCompletions + diagnostics.totalFailures)
    }

    constructor ()
      ensures View() == INITIAL
    {
      models, health, inflight := [], map[], map[];
      cache, diagnostics := RoutingCache(None, None), NO_DIAGNOSTICS;
    }

    /** A finished completion: health, ratio, in-flight count and both counters. */
    method OnCompletionFinished(e: Event, root: real -> real)
      requires IsSqrt(root) && e.CompletionFinished?
      modifies this
      ensures View() == Apply(old(View()), e)
    {
      var id := e.modelId;
      var latencyMs := e.latencyMs;
      var success := e.success;
      var now := CurrentTime();
      if id in health {
        var h := health[id];
        if success {
          h := h.(lastSuccess := now);
          h := h.(latencyAvgMs := WindowedAvg(h.latencyAvgMs, latencyMs as real, 20));
          h := h.(successCount := h.successCount + 1);
        } else {
          h := h.(lastFailure := now);
          h := h.(failureCount := h.failureCount + 1);
        }
        h := h.(successRatio := UpdateSuccessRatio(h.successRatio, success));
        h := Recheck(h, root);
        assert h == Observe(health[id], ObservationOf(e).value.1, now);
        health := health[id := h];
      }
      assert health == HealthAfter(old(health), e, now);
      if id in inflight {
        inflight := inflight[id := if inflight[id] == 0 then 0 else inflight[id] - 1];
      }
      assert inflight == InflightAfter(old(inflight), e);
      diagnostics := diagnostics.(totalCompletions := diagnostics.totalCompletions + 1);
      if !success {
        diagnostics := diagnostics.(totalFailures := diagnostics.totalFailures + 1);
      }
    }

    /** A failure outside a completion. */
    method OnModelFailed(e: Event, root: real -> real)
      requires IsSqrt(root) && e.ModelFailed?
      modifies this
      ensures View() == Apply(old(View()), e)
    {
      var id := e.modelId;
      var now := CurrentTime();
      if id in health {
        var h := health[id];
        h := h.(lastFailure := now);
        h := h.(failureCount := h.failureCount + 1);
        h := h.(successRatio := UpdateSuccessRatio(h.successRatio, false));
        h := Recheck(h, root);
        health := health[id := h];
      }
      diagnostics := diagnostics.(totalFailures := diagnostics.totalFailures + 1);
    }

    /** A probe that succeeded: window 10, and no change to the success ratio. */
    method OnProbeUpdated(e: Event, root: real -> real)
      requires IsSqrt(root) && e.ProbeUpdated?
      modifies this
      ensures View() == Apply(old(View()), e)
    {
      var id := e.modelId;
      var latencyMs := e.latencyMs;
      var now := CurrentTime();
      if id in health {
        var h := health[id];
        h := h.(lastSuccess := now);
        h := h.(latencyAvgMs := WindowedAvg(h.latencyAvgMs, latencyMs as real, 10));
        h := h.(successCount := h.successCount + 1);
        h := Recheck(h, root);
        health := health[id := h];
      }
    }

    /** A probe that failed; neither ratio nor clock moves. */
    method OnProbeFailed(e: Event, root: real -> real)
      requires IsSqrt(root) && e.ProbeFailed?
      modifies this
      ensures View() == Apply(old(View()), e)
    {
      var id := e.modelId;
      var now := CurrentTime();
      if id in health {
        var h := health[id];
        h := h.(lastFailure := now);
        h := h.(failureCount := h.failureCount + 1);
        h := Recheck(h, root);
        health := health[id := h];
      }
    }

    /** A user report: like a completion, but the clock stands still. */
    method OnReportReceived(e: Event, root: real -> real)
      requires IsSqrt(root) && e.ReportReceived?
      modifies this
      ensures View() == Apply(old(View()), e)
    {
      var id := e.modelId;
      var success := e.success;
      var latencyMs := e.latencyMs;
      var now := CurrentTime();
      if id in health {
        var h := health[id];
        if success {
          h := h.(lastSuccess := now);
          h := h.(latencyAvgMs := WindowedAvg(h.latencyAvgMs, latencyMs as real, 20));
          h := h.(successCount := h.successCount + 1);
        } else {
          h := h.(lastFailure := now);
          h := h.(failureCount := h.failureCount + 1);
        }
        h := h.(successRatio := UpdateSuccessRatio(h.successRatio, success));
        h := Recheck(h, root);
        health := health[id := h];
      }
    }

    /** The dispatch table. */
    method Dispatch(e: Event, root: real -> real)
      requires IsSqrt(root)
      modifies this
      ensures View() == Apply(old(View()), e)
    {
      match e
      case DaemonStarted(_) =>
        diagnostics := NO_DIAGNOSTICS;

      case ModelAdded(model, _) =>
        if HasModel(models, model.id) {
          return;
        }
        models := models + [model];
        health := health[model.id := FRESH];
        inflight := inflight[model.id := 0];

      case ModelRemoved(id, _) =>
        models := Without(models, id);
        health := health - {id};
        inflight := inflight - {id};

      case ModelSelected(id, _, score, _) =>
        cache := cache.(lastSelected := Some(RoutingCacheEntry(id, score, CurrentTime())));
        inflight := inflight[id := (if id in inflight then inflight[id] else 0) + 1];

      case CompletionRequested(id, _, _) =>
        inflight := inflight[id := (if id in inflight then inflight[id] else 0) + 1];

      case CompletionFinished(_, _, _, _) =>
        OnCompletionFinished(e, root);

      case ModelFailed(_, _) =>
        OnModelFailed(e, root);

      case ProbeUpdated(_, _, _) =>
        OnProbeUpdated(e, root);

      case ProbeFailed(_, _) =>
        OnProbeFailed(e, root);

      case FallbackTriggered(fromId, toId, _) =>
        cache := cache.(lastFallback := Some(FallbackEntry(fromId, toId, CurrentTime())));
        diagnostics := diagnostics.(totalFallbacks := diagnostics.totalFallbacks + 1);

      case DegradeModeEnabled(_, _) =>
        diagnostics := diagnostics.(totalDegradations := diagnostics.totalDegradations + 1);

      case ReportReceived(_, _, _, _) =>
        OnReportReceived(e, root);

      case ConfigReloaded(_) =>
      case DaemonStopped(_) =>
    }
  }

  // ----- the transition on snapshots -------------------------------------------------------------

  /** What an event tells about one model: a success with a latency folded into a window, or a
      failure; `rated` says whether the success ratio moves too. */
  datatype Observation =
    | Success(latencyMs: nat, window: Window, rated: bool)
    | Failure(rated: bool)

  function ObservationOf(e: Event): Option<(ModelId, Observation)> {
    match e
    case CompletionFinished(id, latencyMs, _, success) =>
      Some((id, if success then Success(latencyMs, 20, true) else Failure(true)))
    case ReportReceived(id, success, latencyMs, _) =>
      Some((id, if success then Success(latencyMs, 20, true) else Failure(true)))
    case ModelFailed(id, _) => Some((id, Failure(true)))
    case ProbeUpdated(id, _, latencyMs) => Some((id, Success(latencyMs, 10, false)))
    case ProbeFailed(id, _) => Some((id, Failure(false)))
    case _ => None
  }

  function Observe(h: HealthStatus, o: Observation, now: SequencedInstant): HealthStatus {
    var counted := match o
      case Success(latencyMs, window, rated) =>
        h.(lastSuccess := now,
           latencyAvgMs := WindowedAvg(h.latencyAvgMs, latencyMs as real, window),
           successCount := h.successCount + 1,
           successRatio := if rated then UpdateSuccessRatio(h.successRatio, true) else h.successRatio)
      case Failure(rated) =>
        h.(lastFailure := now,
           failureCount := h.failureCount + 1,
           successRatio := if rated then UpdateSuccessRatio(h.successRatio, false) else h.successRatio);
    counted.(garbage := Garbage(counted))
  }

  function HealthAfter(health: map<ModelId, HealthStatus>, e: Event, now: SequencedInstant)
    : map<ModelId, HealthStatus>
  {
    match ObservationOf(e)
    case Some((id, o)) => if id in health then health[id := Observe(health[id], o, now)] else health
    case None => health
  }

  function InflightAfter(inflight: map<ModelId, nat>, e: Event): map<ModelId, nat> {
    if e.ModelSelected? || e.CompletionRequested? then
      inflight[e.modelId := (if e.modelId in inflight then inflight[e.modelId] else 0) + 1]
    else if e.CompletionFinished? && e.modelId in inflight then
      inflight[e.modelId := if inflight[e.modelId] == 0 then 0 else inflight[e.modelId] - 1]
    else
      inflight
  }

  function DiagnosticsAfter(d: Diagnostics, e: Event): Diagnostics {
    if e.DaemonStarted? then NO_DIAGNOSTICS
    else
      Diagnostics(
        d.totalCompletions + if e.CompletionFinished? then 1 else 0,
        d.totalFailures + if e.ModelFailed? || (e.CompletionFinished? && !e.success) then 1 else 0,
        d.totalFallbacks + if e.FallbackTriggered? then 1 else 0,
        d.totalDegradations + if e.DegradeModeEnabled? then 1 else 0)
  }

  function CacheAfter(cache: RoutingCache, e: Event, now: SequencedInstant): RoutingCache {
    match e
    case ModelSelected(id, _, score, _) => cache.(lastSelected := Some(RoutingCacheEntry(id, score, now)))
    case FallbackTriggered(fromId, toId, _) => cache.(lastFallback := Some(FallbackEntry(fromId, toId, now)))
    case _ => cache
  }

  function Apply(v: Projection, e: Event): Projection {
    match e
    case ModelAdded(model, _) =>
      if HasModel(v.models, model.id) then v
      else v.(models := v.models + [model],
              health := v.health[model.id := FRESH],
              inflight := v.inflight[model.id := 0])
    case ModelRemoved(id, _) =>
      v.(models := Without(v.models, id), health := v.health - {id}, inflight := v.inflight - {id})
    case _ =>
      var now := v.CurrentTime();
      Projection(
        v.models,
        HealthAfter(v.health, e, now),
        CacheAfter(v.cache, e, now),
        InflightAfter(v.inflight, e),
        DiagnosticsAfter(v.diagnostics, e))
  }

  /** The state after a whole event log. */
  function Replay(log: seq<Event>): Projection {
    if log == [] then INITIAL else Apply(Replay(log[..|log| - 1]), log[|log| - 1])
  }

  // ----- invariants of every reachable state -------------------------------------------------------

  ghost predicate DistinctIds(models: seq<Model>) {
    forall i, j :: 0 <= i < j < |models| ==> models[i].id != models[j].id
  }

  ghost predicate Consistent(v: Projection) {
    && DistinctIds(v.models)
    && (forall id :: id in v.health <==> HasModel(v.models, id))
    && (forall id :: id in v.health ==> id in v.inflight)
    && (forall id :: id in v.health ==> v.health[id].garbage == Garbage(v.health[id]))
    && (forall id :: id in v.health ==> 0.0 <= v.health[id].successRatio <= 1.0)
    && (forall id :: id in v.health ==> v.health[id].latencyAvgMs >= 0.0)
  }

  /** `Without` keeps the order and exactly the models with another id. */
  lemma {:induction false} WithoutIsRetain(models: seq<Model>, id: ModelId)
    ensures !HasModel(Without(models, id), id)
    ensures forall m :: m in Without(models, id) <==> m in models && m.id != id
    ensures DistinctIds(models) ==> DistinctIds(Without(models, id))
  {
    WithoutMembers(models, id);
    if DistinctIds(models) { WithoutDistinct(models, id); }
  }

  lemma {:induction false} WithoutMembers(models: seq<Model>, id: ModelId)
    ensures forall m :: m in Without(models, id) <==> m in models && m.id != id
  {
    if models != [] {
      var front, last := models[..|models| - 1], models[|models| - 1];
      WithoutMembers(front, id);
      assert models == front + [last];
    }
  }

  lemma {:induction false} WithoutDistinct(models: seq<Model>, id: ModelId)
    requires DistinctIds(models)
    ensures DistinctIds(Without(models, id))
  {
    if models != [] {
      var front, last := models[..|models| - 1], models[|models| - 1];
      WithoutDistinct(front, id);
      WithoutMembers(front, id);
      var rest := Without(front, id);
      forall i | 0 <= i < |rest| ensures rest[i].id != last.id { assert rest[i] in front; }
    }
  }

  lemma AverageBounds(current: real, x: real, window: Window, top: real)
    requires 0.0 <= current <= top && 0.0 <= x <= top
    ensures 0.0 <= WindowedAvg(current, x, window) <= top
  {
    var u := 1.0 / window as real;
    assert 0.0 < u < 1.0;
    var c := 1.0 - u;
    assert 0.0 <= current * c <= top * c;
    assert 0.0 <= x * u <= top * u;
    assert top * c + top * u == top;
  }

  lemma ObserveKeeps(h: HealthStatus, o: Observation, now: SequencedInstant)
    requires 0.0 <= h.successRatio <= 1.0 && h.latencyAvgMs >= 0.0
    ensures var h' := Observe(h, o, now);
      h'.garbage == Garbage(h') && 0.0 <= h'.successRatio <= 1.0 && h'.latencyAvgMs >= 0.0
  {
    if o.Success? {
      var top := if h.latencyAvgMs < o.latencyMs as real then o.latencyMs as real else h.latencyAvgMs;
      AverageBounds(h.latencyAvgMs, o.latencyMs as real, o.window, top);
    }
  }

  lemma AddKeepsConsistent(v: Projection, model: Model, source: ModelSource)
    requires Consistent(v)
    ensures Consistent(Apply(v, ModelAdded(model, source)))
  {
    if !HasModel(v.models, model.id) {
      var grown := v.models + [model];
      forall id ensures HasModel(grown, id) <==> HasModel(v.models, id) || id == model.id {
        assert grown[|v.models|] == model;
        if HasModel(v.models, id) {
          var i :| 0 <= i < |v.models| && v.models[i].id == id;
          assert grown[i].id == id;
        }
      }
    }
  }

  lemma ObservationKeepsConsistent(v: Projection, e: Event)
    requires Consistent(v) && !e.ModelAdded? && !e.ModelRemoved?
    ensures Consistent(Apply(v, e))
  {
    var now := v.CurrentTime();
    match ObservationOf(e)
    case Some((id, o)) => if id in v.health { ObserveKeeps(v.health[id], o, now); }
    case None =>
  }

  lemma ApplyKeepsConsistent(v: Projection, e: Event)
    requires Consistent(v)
    ensures Consistent(Apply(v, e))
  {
    match e
    case ModelAdded(model, source) => AddKeepsConsistent(v, model, source);
    case ModelRemoved(id, _) =>
      WithoutIsRetain(v.models, id);
    case _ => ObservationKeepsConsistent(v, e);
  }

  /** Every reachable state is consistent. */
  lemma {:induction false} ReachableConsistent(log: seq<Event>)
    ensures Consistent(Replay(log))
  {
    if log != [] {
      ReachableConsistent(log[..|log| - 1]);
      ApplyKeepsConsistent(Replay(log[..|log| - 1]), log[|log| - 1]);
    }
  }
}
