/** Whole runs seen from one model.  `Track` projects a state to what concerns one id; that
    projection is itself a small state machine, and every claim about runs is a claim about it. */
module ModelRuns {
  import opened Types
  import opened Health
  import opened Reducers

  datatype ModelView = ModelView(health: Option<HealthStatus>, inflight: nat, clock: nat)

  /** A missing in-flight entry reads as 0, as it does in the router. */
  function Track(v: Projection, m: ModelId): ModelView {
    ModelView(
      if m in v.health then Some(v.health[m]) else None,
      if m in v.inflight then v.inflight[m] else 0,
      v.Clock())
  }

  /** How far an event moves the logical clock: a failed completion counts twice. */
  function Ticks(e: Event): nat {
    if e.CompletionFinished? then (if e.success then 1 else 2) else if e.ModelFailed? then 1 else 0
  }

  /** +1 when a request for `m` starts, -1 when one finishes. */
  function Load(e: Event, m: ModelId): int {
    if (e.ModelSelected? || e.CompletionRequested?) && e.modelId == m then 1
    else if e.CompletionFinished? && e.modelId == m then -1
    else 0
  }

  function HealthStep(t: ModelView, m: ModelId, e: Event): Option<HealthStatus> {
    match ObservationOf(e)
    case Some((id, o)) =>
      if id == m && t.health.Some? then Some(Observe(t.health.value, o, InstantAt(t.clock))) else t.health
    case None => t.health
  }

  function TrackStep(t: ModelView, m: ModelId, e: Event): ModelView {
    match e
    case DaemonStarted(_) => t.(clock := 0)
    case ModelAdded(model, _) =>
      if model.id == m && t.health.None? then ModelView(Some(FRESH), 0, t.clock) else t
    case ModelRemoved(id, _) => if id == m then ModelView(None, 0, t.clock) else t
    case _ =>
      ModelView(
        HealthStep(t, m, e),
        if t.inflight + Load(e, m) < 0 then 0 else t.inflight + Load(e, m),
        t.clock + Ticks(e))
  }

  function TrackRun(log: seq<Event>, m: ModelId): ModelView {
    if log == [] then ModelView(None, 0, 0)
    else TrackStep(TrackRun(log[..|log| - 1], m), m, log[|log| - 1])
  }

  lemma TrackApply(v: Projection, e: Event, m: ModelId)
    requires Consistent(v)
    ensures Track(Apply(v, e), m) == TrackStep(Track(v, m), m, e)
  {
    if !e.ModelAdded? && !e.ModelRemoved? { TrackOther(v, e, m); }
  }

  lemma TrackOther(v: Projection, e: Event, m: ModelId)
    requires !e.ModelAdded? && !e.ModelRemoved?
    ensures Track(Apply(v, e), m) == TrackStep(Track(v, m), m, e)
  {
  }

  /** Tracking commutes with replay: the per-model machine is a refinement of the full one. */
  lemma {:induction false} TrackReplay(log: seq<Event>, m: ModelId)
    ensures Track(Replay(log), m) == TrackRun(log, m)
  {
    if log != [] {
      var front := log[..|log| - 1];
      TrackReplay(front, m);
      ReachableConsistent(front);
      TrackApply(Replay(front), log[|log| - 1], m);
    }
  }

  // ----- noninterference --------------------------------------------------------------------------

  predicate Names(e: Event, m: ModelId) {
    match e
    case DaemonStarted(_) => false
    case DaemonStopped(_) => false
    case ConfigReloaded(_) => false
    case ModelAdded(model, _) => model.id == m
    case FallbackTriggered(fromId, toId, _) => fromId == m || toId == m
    case _ => e.modelId == m
  }

  /** Events that name `m`, or that move or reset the clock. */
  predicate NamesOrTicks(e: Event, m: ModelId) {
    Names(e, m) || Ticks(e) > 0 || e.DaemonStarted?
  }

  function Keep(log: seq<Event>, wanted: Event -> bool): seq<Event> {
    if log == [] then []
    else
      var rest, last := Keep(log[..|log| - 1], wanted), log[|log| - 1];
      if wanted(last) then rest + [last] else rest
  }

  datatype Untimed = Untimed(registered: bool, successes: nat, failures: nat, ratio: real, latency: real, inflight: nat)

  /** All that is tracked about a model except its two timestamps and the garbage flag they feed. */
  function WithoutTime(t: ModelView): Untimed {
    match t.health
    case None => Untimed(false, 0, 0, 0.0, 0.0, t.inflight)
    case Some(h) => Untimed(true, h.successCount, h.failureCount, h.successRatio, h.latencyAvgMs, t.inflight)
  }

  lemma NamedStep(t: ModelView, t': ModelView, e: Event, m: ModelId)
    requires WithoutTime(t) == WithoutTime(t')
    ensures WithoutTime(TrackStep(t, m, e)) == WithoutTime(TrackStep(t', m, e))
  {
  }

  /** Counts, ratio, latency and load of one model depend on nothing but the events naming it. */
  lemma {:induction false} Noninterference(log: seq<Event>, m: ModelId)
    ensures WithoutTime(Track(Replay(log), m)) == WithoutTime(Track(Replay(Keep(log, e => Names(e, m))), m))
  {
    var wanted := e => Names(e, m);
    TrackReplay(log, m);
    TrackReplay(Keep(log, wanted), m);
    NoninterferenceTracked(log, m);
  }

  lemma {:induction false} NoninterferenceTracked(log: seq<Event>, m: ModelId)
    ensures WithoutTime(TrackRun(log, m)) == WithoutTime(TrackRun(Keep(log, e => Names(e, m)), m))
  {
    if log != [] {
      var front, last := log[..|log| - 1], log[|log| - 1];
      NoninterferenceTracked(front, m);
      var kept := Keep(front, e => Names(e, m));
      if Names(last, m) {
        NamedStep(TrackRun(front, m), TrackRun(kept, m), last, m);
        assert (kept + [last])[..|kept|] == kept;
      }
    }
  }

  /** With the clock-moving events of other models kept as well, nothing at all is lost: timestamps
      and the garbage flag come out the same. */
  lemma {:induction false} TimedNoninterference(log: seq<Event>, m: ModelId)
    ensures Track(Replay(log), m) == Track(Replay(Keep(log, e => NamesOrTicks(e, m))), m)
  {
    TrackReplay(log, m);
    TrackReplay(Keep(log, e => NamesOrTicks(e, m)), m);
    TimedTracked(log, m);
  }

  lemma {:induction false} TimedTracked(log: seq<Event>, m: ModelId)
    ensures TrackRun(log, m) == TrackRun(Keep(log, e => NamesOrTicks(e, m)), m)
  {
    if log != [] {
      var front, last := log[..|log| - 1], log[|log| - 1];
      TimedTracked(front, m);
      var kept := Keep(front, e => NamesOrTicks(e, m));
      assert Keep(log, e => NamesOrTicks(e, m)) == if NamesOrTicks(last, m) then kept + [last] else kept;
      assert (kept + [last])[..|kept|] == kept;
    }
  }

  // ----- what the counters count ------------------------------------------------------------------

  /** The events after the one that last registered `m`; `None` while it is not registered. */
  function SinceAdded(log: seq<Event>, m: ModelId): Option<seq<Event>> {
    if log == [] then None
    else
      var before, e := SinceAdded(log[..|log| - 1], m), log[|log| - 1];
      if e.ModelRemoved? && e.modelId == m then None
      else if before.None? then (if e.ModelAdded? && e.model.id == m then Some([]) else None)
      else Some(before.value + [e])
  }

  predicate Observes(e: Event, m: ModelId, success: bool) {
    match ObservationOf(e)
    case Some((id, o)) => id == m && o.Success? == success
    case None => false
  }

  function Count(seg: seq<Event>, wanted: Event -> bool): nat {
    |Keep(seg, wanted)|
  }

  function Observations(seg: seq<Event>, m: ModelId, success: bool): nat {
    Count(seg, e => Observes(e, m, success))
  }

  lemma CountSnoc(seg: seq<Event>, e: Event, wanted: Event -> bool)
    ensures Count(seg + [e], wanted) == Count(seg, wanted) + if wanted(e) then 1 else 0
  {
    assert (seg + [e])[..|seg|] == seg;
  }

  /** A model is registered exactly while `SinceAdded` has a value, and its two counts are the numbers
      of successes and failures observed since. */
  lemma {:induction false} CountsAreObservations(log: seq<Event>, m: ModelId)
    ensures var t, seg := Track(Replay(log), m), SinceAdded(log, m);
      && t.health.Some? == seg.Some?
      && (seg.Some? ==>
            && t.health.value.successCount == Observations(seg.value, m, true)
            && t.health.value.failureCount == Observations(seg.value, m, false))
  {
    TrackReplay(log, m);
    TrackedCounts(log, m);
  }

  lemma {:induction false} TrackedCounts(log: seq<Event>, m: ModelId)
    ensures var t, seg := TrackRun(log, m), SinceAdded(log, m);
      && t.health.Some? == seg.Some?
      && (seg.Some? ==>
            && t.health.value.successCount == Observations(seg.value, m, true)
            && t.health.value.failureCount == Observations(seg.value, m, false))
  {
    if log != [] {
      var front, e := log[..|log| - 1], log[|log| - 1];
      TrackedCounts(front, m);
      var before := SinceAdded(front, m);
      if before.Some? {
        CountSnoc(before.value, e, x => Observes(x, m, true));
        CountSnoc(before.value, e, x => Observes(x, m, false));
      }
    }
  }

  // ----- the in-flight count ------------------------------------------------------------------------

  /** The events after the last one that set the in-flight count of `m` to zero: an effective add, or a removal. */
  function SinceReset(log: seq<Event>, m: ModelId): seq<Event> {
    if log == [] then []
    else
      var front, e := log[..|log| - 1], log[|log| - 1];
      if e.ModelRemoved? && e.modelId == m then []
      else if e.ModelAdded? && e.model.id == m && SinceAdded(front, m).None? then []
      else SinceReset(front, m) + [e]
  }

  /** Requests started minus requests finished. */
  function Net(seg: seq<Event>, m: ModelId): int {
    if seg == [] then 0 else Net(seg[..|seg| - 1], m) + Load(seg[|seg| - 1], m)
  }

  ghost predicate IsMaxSuffixNet(seg: seq<Event>, m: ModelId, x: int) {
    && (exists k :: 0 <= k <= |seg| && Net(seg[k..], m) == x)
    && (forall k :: 0 <= k <= |seg| ==> Net(seg[k..], m) <= x)
  }

  /** The reflection formula for the saturating counter: it equals the largest net load over all
      suffixes of the events since the last reset. */
  lemma {:induction false} InflightIsReflection(log: seq<Event>, m: ModelId)
    ensures IsMaxSuffixNet(SinceReset(log, m), m, Track(Replay(log), m).inflight)
  {
    TrackReplay(log, m);
    TrackedInflight(log, m);
  }

  lemma {:induction false} TrackedInflight(log: seq<Event>, m: ModelId)
    ensures IsMaxSuffixNet(SinceReset(log, m), m, TrackRun(log, m).inflight)
  {
    var seg := SinceReset(log, m);
    if log == [] || seg == [] {
      TrackedResetIsZero(log, m);
      assert seg[0..] == seg;
    } else {
      var front, e := log[..|log| - 1], log[|log| - 1];
      TrackedInflight(front, m);
      TrackedCounts(front, m);
      assert seg == SinceReset(front, m) + [e];
      TrackedLoad(TrackRun(front, m), e, m);
      ReflectStep(SinceReset(front, m), m, TrackRun(front, m).inflight, e);
    }
  }

  lemma TrackedLoad(t: ModelView, e: Event, m: ModelId)
    requires !(e.ModelRemoved? && e.modelId == m) && !(e.ModelAdded? && e.model.id == m && t.health.None?)
    ensures TrackStep(t, m, e).inflight == if t.inflight + Load(e, m) < 0 then 0 else t.inflight + Load(e, m)
  {
  }

  lemma TrackedResetIsZero(log: seq<Event>, m: ModelId)
    requires log == [] || SinceReset(log, m) == []
    ensures TrackRun(log, m).inflight == 0
  {
    if log != [] { TrackedCounts(log[..|log| - 1], m); }
  }

  lemma ReflectStep(seg: seq<Event>, m: ModelId, x: nat, e: Event)
    requires IsMaxSuffixNet(seg, m, x)
    ensures IsMaxSuffixNet(seg + [e], m, if x + Load(e, m) < 0 then 0 else x + Load(e, m))
  {
    var longer := seg + [e];
    forall k | 0 <= k <= |seg| ensures Net(longer[k..], m) == Net(seg[k..], m) + Load(e, m) {
      assert longer[k..] == seg[k..] + [e];
    }
    assert longer[|longer|..] == [];
    assert Net(longer[|longer|..], m) == 0;
    var k :| 0 <= k <= |seg| && Net(seg[k..], m) == x;
    assert Net(longer[k..], m) == x + Load(e, m);
  }
}
