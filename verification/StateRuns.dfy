/** What the rest of the state remembers of a run: the four counters, the last selection and the last fallback. */
module StateRuns {
  import opened Types
  import opened Health
  import opened Reducers
  import opened ModelRuns
  import opened GarbageRuns

  /** The events since the daemon last started. */
  function SinceStart(log: seq<Event>): seq<Event> {
    if log == [] || log[|log| - 1].DaemonStarted? then []
    else SinceStart(log[..|log| - 1]) + [log[|log| - 1]]
  }

  predicate IsFailure(e: Event) {
    e.ModelFailed? || (e.CompletionFinished? && !e.success)
  }

  /** The counters count, since the last start: finished completions, failed ones and failures of models,
      fallbacks, and degradations. */
  lemma {:induction false} CountersCount(log: seq<Event>)
    ensures var d, seg := Replay(log).diagnostics, SinceStart(log);
      && d.totalCompletions == Count(seg, (e: Event) => e.CompletionFinished?)
      && d.totalFailures == Count(seg, IsFailure)
      && d.totalFallbacks == Count(seg, (e: Event) => e.FallbackTriggered?)
      && d.totalDegradations == Count(seg, (e: Event) => e.DegradeModeEnabled?)
  {
    if log != [] {
      var front, e := log[..|log| - 1], log[|log| - 1];
      CountersCount(front);
      CountSnoc(SinceStart(front), e, (x: Event) => x.CompletionFinished?);
      CountSnoc(SinceStart(front), e, IsFailure);
      CountSnoc(SinceStart(front), e, (x: Event) => x.FallbackTriggered?);
      CountSnoc(SinceStart(front), e, (x: Event) => x.DegradeModeEnabled?);
    }
  }

  /** The index of the last event of this kind, or -1. */
  function LastOf(log: seq<Event>, wanted: Event -> bool): (k: int)
    ensures -1 <= k < |log| && (k >= 0 ==> wanted(log[k]))
    ensures forall i :: k < i < |log| ==> !wanted(log[i])
  {
    if log == [] then -1
    else if wanted(log[|log| - 1]) then |log| - 1
    else LastOf(log[..|log| - 1], wanted)
  }

  lemma {:induction false} ClockIs(log: seq<Event>)
    ensures Replay(log).Clock() == ClockAfter(log)
  {
    if log != [] {
      ClockIs(log[..|log| - 1]);
    }
  }

  /** The cache remembers the last selection and the last fallback of the whole run, each with the clock
      as it stood then. */
  lemma {:induction false} CacheRemembers(log: seq<Event>)
    ensures var k := LastOf(log, (e: Event) => e.ModelSelected?);
      Replay(log).cache.lastSelected ==
        if k < 0 then None
        else Some(RoutingCacheEntry(log[k].modelId, log[k].score, InstantAt(ClockAfter(log[..k]))))
    ensures var k := LastOf(log, (e: Event) => e.FallbackTriggered?);
      Replay(log).cache.lastFallback ==
        if k < 0 then None else Some(FallbackEntry(log[k].fromId, log[k].toId, InstantAt(ClockAfter(log[..k]))))
  {
    if log != [] {
      var front, e := log[..|log| - 1], log[|log| - 1];
      CacheRemembers(front);
      ClockIs(front);
      SamePrefix(log, LastOf(front, (x: Event) => x.ModelSelected?));
      SamePrefix(log, LastOf(front, (x: Event) => x.FallbackTriggered?));
    }
  }

  lemma SamePrefix(log: seq<Event>, k: int)
    requires log != [] && k < |log| - 1
    ensures k >= 0 ==> log[..|log| - 1][..k] == log[..k] && log[..|log| - 1][k] == log[k]
  {
  }

  /** A model that has just been added is unknown: no observations, no measurements, an even success ratio, not
      garbage, no requests in flight. */
  lemma NewModel(v: Projection, model: Model, source: ModelSource)
    requires Consistent(v) && model.id !in v.health
    ensures var v' := Apply(v, ModelAdded(model, source));
      && v'.models == v.models + [model] && model.id in v'.health && model.id in v'.inflight
      && v'.inflight[model.id] == 0
      && v'.health[model.id] ==
           HealthStatus(SequencedInstant(0, 0), SequencedInstant(0, 0), 0.5, 0.0, false, 0, 0)
  {
  }
}
