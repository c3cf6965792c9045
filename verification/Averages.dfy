/** What the two running averages of a model are, in plain numbers: how far one event moves them, and where
    runs of equal observations take them. */
module Averages {
  import opened Types
  import opened Health
  import opened Reducers
  import opened ModelRuns
  import opened GarbageRuns

  predicate IsProbeOf(e: Event, m: ModelId) {
    e.ProbeUpdated? && e.modelId == m
  }

  /** A finished completion or a user report of the model, with this outcome. */
  predicate IsUseOf(e: Event, m: ModelId, success: bool) {
    (e.CompletionFinished? || e.ReportReceived?) && e.modelId == m && e.success == success
  }

  /** The health of a model that stays registered after an event: as it was, or after one observation. */
  lemma HealthIs(v: Projection, e: Event, m: ModelId)
    requires Consistent(v) && m in v.health && !(e.ModelRemoved? && e.modelId == m)
    ensures m in Apply(v, e).health
    ensures Apply(v, e).health[m] ==
      if ObservationOf(e).Some? && ObservationOf(e).value.0 == m
      then Observe(v.health[m], ObservationOf(e).value.1, v.CurrentTime()) else v.health[m]
  {
  }

  /** One event: a good probe moves the latency average a tenth of the way to the measured latency, a
      successful use a twentieth; a success moves the ratio a tenth of the way to 1, a failed use or a failure
      of the model a tenth of the way to 0; nothing else moves either. */
  lemma AveragesMove(v: Projection, e: Event, m: ModelId)
    requires Consistent(v) && m in v.health && !(e.ModelRemoved? && e.modelId == m)
    ensures m in Apply(v, e).health
    ensures var h, h' := v.health[m], Apply(v, e).health[m];
      && (IsProbeOf(e, m) ==> 10.0 * (h'.latencyAvgMs - h.latencyAvgMs) == e.latencyMs as real - h.latencyAvgMs)
      && (IsUseOf(e, m, true) ==> 20.0 * (h'.latencyAvgMs - h.latencyAvgMs) == e.latencyMs as real - h.latencyAvgMs)
      && (!IsProbeOf(e, m) && !IsUseOf(e, m, true) ==> h'.latencyAvgMs == h.latencyAvgMs)
    ensures var h, h' := v.health[m], Apply(v, e).health[m];
      && (IsUseOf(e, m, true) ==> 10.0 * (h'.successRatio - h.successRatio) == 1.0 - h.successRatio)
      && (IsUseOf(e, m, false) || FailsModel(e, m) ==>
            10.0 * (h'.successRatio - h.successRatio) == 0.0 - h.successRatio)
      && (!IsUseOf(e, m, true) && !IsUseOf(e, m, false) && !FailsModel(e, m) ==> h'.successRatio == h.successRatio)
  {
    HealthIs(v, e, m);
  }

  function Power(base: real, n: nat): real {
    if n == 0 then 1.0 else base * Power(base, n - 1)
  }

  function Repeat(e: Event, n: nat): seq<Event> {
    if n == 0 then [] else Repeat(e, n - 1) + [e]
  }

  lemma RepeatRun(model: Model, e: Event, n: nat)
    requires n > 0
    ensures TrackRun([ModelAdded(model, Bundled)] + Repeat(e, n), model.id)
      == TrackStep(TrackRun([ModelAdded(model, Bundled)] + Repeat(e, n - 1), model.id), model.id, e)
  {
    var before := [ModelAdded(model, Bundled)] + Repeat(e, n - 1);
    RunSnoc(before, e, model.id);
    assert [ModelAdded(model, Bundled)] + Repeat(e, n) == before + [e];
  }

  lemma NoRepeat(model: Model, e: Event)
    ensures TrackRun([ModelAdded(model, Bundled)] + Repeat(e, 0), model.id) == ModelView(Some(FRESH), 0, 0)
  {
    assert [ModelAdded(model, Bundled)] + Repeat(e, 0) == [ModelAdded(model, Bundled)];
  }

  /** The model's health after it was added and the same event happened `n` times. */
  ghost predicate Reaches(model: Model, e: Event, n: nat, latency: real, ratio: real) {
    var health := Replay([ModelAdded(model, Bundled)] + Repeat(e, n)).health;
    model.id in health && health[model.id].latencyAvgMs == latency && health[model.id].successRatio == ratio
  }

  ghost predicate TracksTo(model: Model, e: Event, n: nat, latency: real, ratio: real) {
    var t := TrackRun([ModelAdded(model, Bundled)] + Repeat(e, n), model.id);
    t.health.Some? && t.health.value.latencyAvgMs == latency && t.health.value.successRatio == ratio
  }

  lemma TracksIsReaches(model: Model, e: Event, n: nat, latency: real, ratio: real)
    requires TracksTo(model, e, n, latency, ratio)
    ensures Reaches(model, e, n, latency, ratio)
  {
    var log := [ModelAdded(model, Bundled)] + Repeat(e, n);
    TrackReplay(log, model.id);
  }

  /** `n` good probes of latency x: the average is x (1 - 0.9^n), and the ratio stays at one half. */
  lemma ProbesReach(model: Model, latencyMs: nat, n: nat)
    ensures Reaches(model, ProbeUpdated(model.id, 1.0, latencyMs), n, latencyMs as real * (1.0 - Power(0.9, n)), 0.5)
  {
    ProbesTrack(model, latencyMs, n);
    TracksIsReaches(model, ProbeUpdated(model.id, 1.0, latencyMs), n, latencyMs as real * (1.0 - Power(0.9, n)), 0.5);
  }

  lemma {:induction false} ProbesTrack(model: Model, latencyMs: nat, n: nat)
    ensures TracksTo(model, ProbeUpdated(model.id, 1.0, latencyMs), n, latencyMs as real * (1.0 - Power(0.9, n)), 0.5)
  {
    var e := ProbeUpdated(model.id, 1.0, latencyMs);
    if n == 0 {
      NoRepeat(model, e);
    } else {
      ProbesTrack(model, latencyMs, n - 1);
      RepeatRun(model, e, n);
      Towards(latencyMs as real, Power(0.9, n - 1), 0.9);
    }
  }

  /** `n` successful completions of latency x: the average is x (1 - 0.95^n), and the ratio 1 - 0.9^n / 2. */
  lemma SuccessesReach(model: Model, latencyMs: nat, tokens: nat, n: nat)
    ensures Reaches(model, CompletionFinished(model.id, latencyMs, tokens, true), n,
      latencyMs as real * (1.0 - Power(0.95, n)), 1.0 - Power(0.9, n) / 2.0)
  {
    SuccessesTrack(model, latencyMs, tokens, n);
    TracksIsReaches(model, CompletionFinished(model.id, latencyMs, tokens, true), n,
      latencyMs as real * (1.0 - Power(0.95, n)), 1.0 - Power(0.9, n) / 2.0);
  }

  lemma {:induction false} SuccessesTrack(model: Model, latencyMs: nat, tokens: nat, n: nat)
    ensures TracksTo(model, CompletionFinished(model.id, latencyMs, tokens, true), n,
      latencyMs as real * (1.0 - Power(0.95, n)), 1.0 - Power(0.9, n) / 2.0)
  {
    var e := CompletionFinished(model.id, latencyMs, tokens, true);
    if n == 0 {
      NoRepeat(model, e);
    } else {
      SuccessesTrack(model, latencyMs, tokens, n - 1);
      RepeatRun(model, e, n);
      Towards(latencyMs as real, Power(0.95, n - 1), 0.95);
    }
  }

  /** `n` failed completions: no latency is recorded, and the ratio is 0.9^n / 2. */
  lemma FailuresReach(model: Model, latencyMs: nat, tokens: nat, n: nat)
    ensures Reaches(model, CompletionFinished(model.id, latencyMs, tokens, false), n, 0.0, Power(0.9, n) / 2.0)
  {
    FailuresTrack(model, latencyMs, tokens, n);
    TracksIsReaches(model, CompletionFinished(model.id, latencyMs, tokens, false), n, 0.0, Power(0.9, n) / 2.0);
  }

  lemma {:induction false} FailuresTrack(model: Model, latencyMs: nat, tokens: nat, n: nat)
    ensures TracksTo(model, CompletionFinished(model.id, latencyMs, tokens, false), n, 0.0, Power(0.9, n) / 2.0)
  {
    var e := CompletionFinished(model.id, latencyMs, tokens, false);
    if n == 0 {
      NoRepeat(model, e);
    } else {
      FailuresTrack(model, latencyMs, tokens, n - 1);
      RepeatRun(model, e, n);
    }
  }

  /** Keeping a share of the distance to x. */
  lemma Towards(x: real, left: real, share: real)
    ensures (x * (1.0 - left)) * share + x * (1.0 - share) == x * (1.0 - share * left)
  {
  }
}
