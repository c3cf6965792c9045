/** When a model is flagged as garbage, said over the history of the run. */
module GarbageRuns {
  import opened Types
  import opened Health
  import opened Reducers
  import opened ModelRuns

  /** How far a stretch of events moves the clock when it holds no restart. */
  function Elapsed(seg: seq<Event>): nat {
    if seg == [] then 0 else Elapsed(seg[..|seg| - 1]) + Ticks(seg[|seg| - 1])
  }

  predicate NoRestart(seg: seq<Event>) {
    forall i :: 0 <= i < |seg| ==> !seg[i].DaemonStarted?
  }

  // ----- timestamps ---------------------------------------------------------------------------------------

  /** What the logical clock shows after a log: a restart sets it back to zero. */
  function ClockAfter(log: seq<Event>): nat {
    if log == [] || log[|log| - 1].DaemonStarted? then 0
    else ClockAfter(log[..|log| - 1]) + Ticks(log[|log| - 1])
  }

  /** The index in the log of the last observation with this outcome since `m` was last added, or -1. */
  function LastSince(log: seq<Event>, m: ModelId, success: bool): (k: int)
    ensures -1 <= k < |log|
    ensures k >= 0 ==> Observes(log[k], m, success)
  {
    if log == [] || SinceAdded(log[..|log| - 1], m).None? then -1
    else if Observes(log[|log| - 1], m, success) then |log| - 1
    else LastSince(log[..|log| - 1], m, success)
  }

  /** The stamp that the observation at index `k` of the log left. */
  function StampIn(log: seq<Event>, k: int): SequencedInstant
    requires k < |log|
  {
    if k < 0 then EPOCH else InstantAt(ClockAfter(log[..k]))
  }

  /** Health of a registered model, told by the log, restarts included. */
  ghost predicate Told(t: ModelView, log: seq<Event>, m: ModelId) {
    && t.health.Some?
    && t.health.value.lastSuccess == StampIn(log, LastSince(log, m, true))
    && t.health.value.lastFailure == StampIn(log, LastSince(log, m, false))
    && t.health.value.garbage == Garbage(t.health.value)
  }

  lemma {:induction false} ClockTold(log: seq<Event>, m: ModelId)
    ensures TrackRun(log, m).clock == ClockAfter(log)
  {
    if log != [] { ClockTold(log[..|log| - 1], m); }
  }

  lemma LastSinceSnoc(log: seq<Event>, e: Event, m: ModelId, success: bool)
    requires SinceAdded(log, m).Some?
    ensures var longer := log + [e];
      StampIn(longer, LastSince(longer, m, success)) ==
      if Observes(e, m, success) then InstantAt(ClockAfter(log)) else StampIn(log, LastSince(log, m, success))
  {
    var longer := log + [e];
    assert longer[..|log|] == log;
    var k := LastSince(log, m, success);
    if k >= 0 { assert longer[..k] == log[..k]; }
  }

  lemma ToldStep(t: ModelView, log: seq<Event>, e: Event, m: ModelId)
    requires Told(t, log, m) && t.clock == ClockAfter(log) && SinceAdded(log, m).Some?
    requires !(e.ModelRemoved? && e.modelId == m)
    ensures Told(TrackStep(t, m, e), log + [e], m)
  {
    LastSinceSnoc(log, e, m, true);
    LastSinceSnoc(log, e, m, false);
  }

  /** In every run the two timestamps of a registered model are the clock readings at its last success and
      its last failure since it was added. */
  lemma {:induction false} Stamps(log: seq<Event>, m: ModelId)
    requires SinceAdded(log, m).Some?
    ensures Told(TrackRun(log, m), log, m)
  {
    var front, e := log[..|log| - 1], log[|log| - 1];
    TrackedCounts(front, m);
    if SinceAdded(front, m).Some? {
      Stamps(front, m);
      ClockTold(front, m);
      ToldStep(TrackRun(front, m), front, e, m);
      assert log == front + [e];
    }
  }

  /** The last failure is stamped later than the last success, if there was one. */
  ghost predicate FailureAhead(log: seq<Event>, m: ModelId) {
    var won, lost := LastSince(log, m, true), LastSince(log, m, false);
    lost >= 0 && (won < 0 || ClockAfter(log[..won]) < ClockAfter(log[..lost]))
  }

  /** When a model is garbage, in any run. */
  lemma GarbageInAnyRun(log: seq<Event>, m: ModelId)
    requires SinceAdded(log, m).Some?
    ensures var seg := SinceAdded(log, m).value;
      var s, f := Observations(seg, m, true), Observations(seg, m, false);
      && m in Replay(log).health
      && (Replay(log).health[m].garbage <==>
            s + f >= MIN_OBS && Under(s, f, GARBAGE_THRESHOLD) && FailureAhead(log, m))
  {
    Stamps(log, m);
    TrackedCounts(log, m);
    TrackReplay(log, m);
  }

  // ----- runs without a restart -------------------------------------------------------------------------

  /** What `SinceAdded` and `LastSince` say about the log's own indices. */
  lemma {:induction false} SinceAddedIs(log: seq<Event>, m: ModelId, success: bool) returns (base: nat)
    requires SinceAdded(log, m).Some?
    ensures base <= |log| && log[base..] == SinceAdded(log, m).value
    ensures var k := LastSince(log, m, success);
      && (k < 0 || k >= base)
      && (forall i :: base <= i < |log| && k < i ==> !Observes(log[i], m, success))
  {
    var front, e := log[..|log| - 1], log[|log| - 1];
    if SinceAdded(front, m).None? {
      base := |log|;
    } else {
      base := SinceAddedIs(front, m, success);
      assert log[base..] == front[base..] + [e];
    }
  }

  lemma {:induction false} ClockOver(log: seq<Event>, i: nat, j: nat)
    requires i <= j <= |log| && forall k :: i <= k < j ==> !log[k].DaemonStarted?
    ensures ClockAfter(log[..i]) <= ClockAfter(log[..j])
    ensures ClockAfter(log[..i]) < ClockAfter(log[..j]) <==> exists k :: i <= k < j && Ticks(log[k]) > 0
    decreases j
  {
    if i < j {
      ClockOver(log, i, j - 1);
      assert log[..j][..j - 1] == log[..j - 1];
      assert ClockAfter(log[..j]) == ClockAfter(log[..j - 1]) + Ticks(log[j - 1]);
    }
  }

  /** The last observation of `m` was a failure, and since its last success, if it ever had one, some
      event moved the clock. */
  ghost predicate FailedSince(log: seq<Event>, m: ModelId) {
    var won, lost := LastSince(log, m, true), LastSince(log, m, false);
    won < lost && (won < 0 || exists k :: won <= k < lost && Ticks(log[k]) > 0)
  }

  lemma AheadIsSince(log: seq<Event>, m: ModelId)
    requires SinceAdded(log, m).Some? && NoRestart(SinceAdded(log, m).value)
    ensures FailureAhead(log, m) <==> FailedSince(log, m)
  {
    var won, lost := LastSince(log, m, true), LastSince(log, m, false);
    var base := SinceAddedIs(log, m, true);
    var base' := SinceAddedIs(log, m, false);
    assert |log[base..]| == |log[base'..]|;
    forall k | base <= k < |log| ensures !log[k].DaemonStarted? { assert log[k] == log[base..][k - base]; }
    if 0 <= won < lost { ClockOver(log, won, lost); }
    if 0 <= lost < won { ClockOver(log, lost, won); }
  }

  /** Exactly when a model is garbage, for runs in which the daemon has not restarted since the model
      was added.  "The last event was a failure" alone is not enough: probe and report events leave
      the clock where it is, so a failure at the instant of the last success does not count. */
  lemma GarbageExactly(log: seq<Event>, m: ModelId)
    requires SinceAdded(log, m).Some? && NoRestart(SinceAdded(log, m).value)
    ensures var seg := SinceAdded(log, m).value;
      var s, f := Observations(seg, m, true), Observations(seg, m, false);
      && m in Replay(log).health
      && (Replay(log).health[m].garbage <==>
            s + f >= MIN_OBS && Under(s, f, GARBAGE_THRESHOLD) && FailedSince(log, m))
  {
    GarbageInAnyRun(log, m);
    AheadIsSince(log, m);
  }

  // ----- exclusion and re-admission ------------------------------------------------------------------

  predicate FailsModel(e: Event, m: ModelId) {
    e.ModelFailed? && e.modelId == m
  }

  lemma {:induction false} CountConcat(a: seq<Event>, b: seq<Event>, wanted: Event -> bool)
    ensures Count(a + b, wanted) == Count(a, wanted) + Count(b, wanted)
  {
    if b == [] {
      assert a + b == a;
    } else {
      var front, last := b[..|b| - 1], b[|b| - 1];
      CountConcat(a, front, wanted);
      CountSnoc(front, last, wanted);
      CountSnoc(a + front, last, wanted);
      assert b == front + [last] && a + b == (a + front) + [last];
    }
  }

  lemma {:induction false} CountSome(seg: seq<Event>, wanted: Event -> bool) returns (k: nat)
    requires Count(seg, wanted) > 0
    ensures k < |seg| && wanted(seg[k])
    ensures Count(seg[..k], wanted) == Count(seg, wanted) - 1
  {
    var front, last := seg[..|seg| - 1], seg[|seg| - 1];
    if wanted(last) {
      k := |seg| - 1;
    } else {
      k := CountSome(front, wanted);
      assert front[..k] == seg[..k];
    }
  }

  lemma {:induction false} CountWider(seg: seq<Event>, narrow: Event -> bool, wide: Event -> bool)
    requires forall e :: narrow(e) ==> wide(e)
    ensures Count(seg, narrow) <= Count(seg, wide)
  {
    if seg != [] { CountWider(seg[..|seg| - 1], narrow, wide); }
  }

  /** A model with s recorded successes is garbage after 6s+5 further failures of the model itself, with no
      success in between, whatever else happens to it or to other models meanwhile. */
  lemma FailuresExclude(log: seq<Event>, m: ModelId, earlier: seq<Event>, later: seq<Event>)
    requires SinceAdded(log, m) == Some(earlier + later) && NoRestart(earlier + later)
    requires Observations(later, m, true) == 0
    requires Count(later, e => FailsModel(e, m)) >= 6 * Observations(earlier, m, true) + 5
    ensures m in Replay(log).health && Replay(log).health[m].garbage
  {
    FailuresCount(m, earlier, later);
    var failed := (e: Event) => FailsModel(e, m);
    var second := CountSome(later, failed);
    var first := CountSome(later[..second], failed);
    TwoFailuresLater(log, m, earlier, later, first, second);
    GarbageExactly(log, m);
  }

  lemma FailuresCount(m: ModelId, earlier: seq<Event>, later: seq<Event>)
    requires Observations(later, m, true) == 0
    requires Count(later, e => FailsModel(e, m)) >= 6 * Observations(earlier, m, true) + 5
    ensures var seg := earlier + later;
      var s, f := Observations(seg, m, true), Observations(seg, m, false);
      s + f >= MIN_OBS && Under(s, f, GARBAGE_THRESHOLD)
  {
    var won, lost := (e: Event) => Observes(e, m, true), (e: Event) => Observes(e, m, false);
    CountConcat(earlier, later, won);
    CountConcat(earlier, later, lost);
    CountWider(later, e => FailsModel(e, m), lost);
  }

  /** Two failures of the model itself with no success around them: the first moves the clock past the last
      success, so that the second counts. */
  lemma TwoFailuresLater(log: seq<Event>, m: ModelId, earlier: seq<Event>, later: seq<Event>, first: nat, second: nat)
    requires SinceAdded(log, m) == Some(earlier + later) && Observations(later, m, true) == 0
    requires first < second < |later| && FailsModel(later[first], m) && FailsModel(later[second], m)
    ensures FailedSince(log, m)
  {
    var base := NoSuccessLater(log, m, earlier, later);
    var a, b := base + |earlier| + first, base + |earlier| + second;
    assert log[a] == log[base..][|earlier| + first] == later[first];
    assert log[b] == log[base..][|earlier| + second] == later[second];
    LastIsLater(log, m, base, b);
    assert Ticks(log[a]) > 0;
  }

  lemma LastIsLater(log: seq<Event>, m: ModelId, base: nat, b: nat)
    requires SinceAdded(log, m).Some? && base <= b < |log| && |log| - base == |SinceAdded(log, m).value|
    requires Observes(log[b], m, false)
    ensures LastSince(log, m, false) >= b
  {
    var base' := SinceAddedIs(log, m, false);
    assert |log[base'..]| == |log| - base;
  }

  lemma {:induction false} CountHit(seg: seq<Event>, wanted: Event -> bool, j: nat)
    requires j < |seg| && wanted(seg[j])
    ensures Count(seg, wanted) > 0
  {
    var front := seg[..|seg| - 1];
    if j < |front| { CountHit(front, wanted, j); }
  }

  /** Without a success in the later part of the history, the last one lies before that part. */
  lemma NoSuccessLater(log: seq<Event>, m: ModelId, earlier: seq<Event>, later: seq<Event>) returns (base: nat)
    requires SinceAdded(log, m) == Some(earlier + later) && Observations(later, m, true) == 0
    ensures base + |earlier| + |later| == |log| && log[base..] == earlier + later
    ensures LastSince(log, m, true) < base + |earlier|
  {
    base := SinceAddedIs(log, m, true);
    var k := LastSince(log, m, true);
    if k >= base + |earlier| {
      assert log[k] == log[base..][k - base] == later[k - base - |earlier|];
      ObservedOnce(later, m, true, k - base - |earlier|);
    }
  }

  lemma ObservedOnce(seg: seq<Event>, m: ModelId, success: bool, j: nat)
    requires j < |seg| && Observes(seg[j], m, success)
    ensures Observations(seg, m, success) > 0
  {
    CountHit(seg, e => Observes(e, m, success), j);
  }

  /** The daemon restarted at or after index `k`, and the clock has not yet come back to where it was then. */
  ghost predicate ClockSetBack(log: seq<Event>, k: nat)
    requires k <= |log|
  {
    exists r :: k <= r < |log| && IsLastRestart(log, r) && Elapsed(log[r + 1..]) < ClockAfter(log[..k])
  }

  predicate IsLastRestart(log: seq<Event>, r: nat)
    requires r < |log|
  {
    log[r].DaemonStarted? && NoRestart(log[r + 1..])
  }

  lemma {:induction false} ClockSinceRestart(log: seq<Event>, r: nat)
    requires r < |log| && IsLastRestart(log, r)
    ensures ClockAfter(log) == Elapsed(log[r + 1..])
  {
    if r + 1 < |log| {
      var front, tail := log[..|log| - 1], log[r + 1..];
      assert tail[..|tail| - 1] == front[r + 1..];
      assert tail[|tail| - 1] == log[|log| - 1];
      ClockSinceRestart(front, r);
    }
  }

  lemma {:induction false} ClockForwardOrRestart(log: seq<Event>, k: nat) returns (r: nat)
    requires k <= |log|
    ensures ClockAfter(log[..k]) <= ClockAfter(log) || (k <= r < |log| && IsLastRestart(log, r))
  {
    r := k;
    if k == |log| {
      assert log[..k] == log;
    } else if log[|log| - 1].DaemonStarted? {
      r := |log| - 1;
    } else {
      var front := log[..|log| - 1];
      r := ClockForwardOrRestart(front, k);
      assert front[..k] == log[..k];
      if k <= r < |front| && IsLastRestart(front, r) {
        var tail := log[r + 1..];
        assert forall i :: 0 <= i < |tail| - 1 ==> tail[i] == front[r + 1..][i];
        assert tail[|tail| - 1] == log[|log| - 1];
      }
    }
  }

  lemma ClockBehindExactly(log: seq<Event>, k: nat)
    requires k <= |log|
    ensures ClockAfter(log) < ClockAfter(log[..k]) <==> ClockSetBack(log, k)
  {
    if ClockAfter(log) < ClockAfter(log[..k]) {
      var r := ClockForwardOrRestart(log, k);
      ClockSinceRestart(log, r);
    }
    if ClockSetBack(log, k) {
      var r :| k <= r < |log| && IsLastRestart(log, r) && Elapsed(log[r + 1..]) < ClockAfter(log[..k]);
      ClockSinceRestart(log, r);
    }
  }

  /** What a success does to the flag, in any run: it clears it, unless the counts are still under the
      threshold and, after the last failure, a restart set the clock back behind where that failure stood. */
  lemma SuccessReadmitsExactly(log: seq<Event>, m: ModelId, e: Event)
    requires SinceAdded(log, m).Some? && Observes(e, m, true)
    ensures var seg, lost := SinceAdded(log, m).value, LastSince(log, m, false);
      var s, f := Observations(seg, m, true), Observations(seg, m, false);
      var health := Replay(log + [e]).health;
      && m in health
      && (health[m].garbage <==>
            s + 1 + f >= MIN_OBS && Under(s + 1, f, GARBAGE_THRESHOLD) && lost >= 0 && ClockSetBack(log, lost))
  {
    var seg, lost := SinceAdded(log, m).value, LastSince(log, m, false);
    AfterSuccess(log, m, e);
    GarbageInAnyRun(log + [e], m);
    if lost >= 0 { ClockBehindExactly(log, lost); }
  }

  lemma AfterSuccess(log: seq<Event>, m: ModelId, e: Event)
    requires SinceAdded(log, m).Some? && Observes(e, m, true)
    ensures var seg, longer := SinceAdded(log, m).value, log + [e];
      && SinceAdded(longer, m) == Some(seg + [e])
      && Observations(seg + [e], m, true) == Observations(seg, m, true) + 1
      && Observations(seg + [e], m, false) == Observations(seg, m, false)
    ensures var lost := LastSince(log, m, false);
      FailureAhead(log + [e], m) <==> lost >= 0 && ClockAfter(log) < ClockAfter(log[..lost])
  {
    var seg, longer, lost := SinceAdded(log, m).value, log + [e], LastSince(log, m, false);
    assert longer[..|log|] == log;
    CountSnoc(seg, e, x => Observes(x, m, true));
    CountSnoc(seg, e, x => Observes(x, m, false));
    assert LastSince(longer, m, true) == |log| && LastSince(longer, m, false) == lost;
    if lost >= 0 { assert longer[..lost] == log[..lost]; }
  }

  /** Such a run: `n` failures, a restart, and one good probe leave the model garbage exactly from four
      failures on. */
  lemma RestartKeepsFlag(model: Model, n: nat)
    ensures var log := [ModelAdded(model, Bundled)] + Failed(model.id, n) + [DaemonStarted("2")];
      var health := Replay(log + [ProbeUpdated(model.id, 1.0, 100)]).health;
      model.id in health && (health[model.id].garbage <==> n >= 4)
  {
    var m, failing := model.id, [ModelAdded(model, Bundled)] + Failed(model.id, n);
    var log := failing + [DaemonStarted("2")];
    var probe := ProbeUpdated(m, 1.0, 100);
    AfterFailures(model, n);
    RunSnoc(failing, DaemonStarted("2"), m);
    RunSnoc(log, probe, m);
    TrackReplay(log + [probe], m);
    if n >= 4 { FewSuccesses(n); }
  }

  function Failed(m: ModelId, n: nat): seq<Event> {
    if n == 0 then [] else Failed(m, n - 1) + [ModelFailed(m, AuthError)]
  }

  lemma {:induction false} AfterFailures(model: Model, n: nat)
    ensures var t := TrackRun([ModelAdded(model, Bundled)] + Failed(model.id, n), model.id);
      && t.clock == n && t.health.Some?
      && t.health.value.successCount == 0 && t.health.value.failureCount == n
      && t.health.value.lastFailure == (if n == 0 then EPOCH else InstantAt(n - 1))
  {
    var added := [ModelAdded(model, Bundled)];
    if n == 0 {
      assert added + Failed(model.id, 0) == added;
    } else {
      AfterFailures(model, n - 1);
      RunSnoc(added + Failed(model.id, n - 1), ModelFailed(model.id, AuthError), model.id);
      assert added + Failed(model.id, n) == (added + Failed(model.id, n - 1)) + [ModelFailed(model.id, AuthError)];
    }
  }

  /** Without a restart since it was added, any success re-admits a model at once. */
  lemma SuccessReadmits(log: seq<Event>, m: ModelId, e: Event)
    requires SinceAdded(log, m).Some? && NoRestart(SinceAdded(log, m).value) && Observes(e, m, true)
    ensures m in Replay(log + [e]).health && !Replay(log + [e]).health[m].garbage
  {
    SuccessReadmitsExactly(log, m, e);
    NotSetBack(log, m);
  }

  lemma NotSetBack(log: seq<Event>, m: ModelId)
    requires SinceAdded(log, m).Some? && NoRestart(SinceAdded(log, m).value)
    ensures var lost := LastSince(log, m, false); lost >= 0 ==> !ClockSetBack(log, lost)
  {
    var lost := LastSince(log, m, false);
    var base := SinceAddedIs(log, m, false);
    if lost >= 0 {
      forall r | lost <= r < |log| ensures !IsLastRestart(log, r) { assert log[r] == log[base..][r - base]; }
    }
  }

  // ----- the latency average ------------------------------------------------------------------------

  /** The largest latency among the successes observed for `m`. */
  function LargestLatency(seg: seq<Event>, m: ModelId): nat {
    if seg == [] then 0
    else
      var before, e := LargestLatency(seg[..|seg| - 1], m), seg[|seg| - 1];
      if Observes(e, m, true) && e.latencyMs > before then e.latencyMs else before
  }

  /** The rolling average never leaves the range of what was measured. */
  lemma LatencyWithinSeen(log: seq<Event>, m: ModelId)
    requires SinceAdded(log, m).Some?
    ensures m in Replay(log).health
    ensures 0.0 <= Replay(log).health[m].latencyAvgMs <= LargestLatency(SinceAdded(log, m).value, m) as real
  {
    LatencyTracked(log, m);
    TrackReplay(log, m);
  }

  lemma {:induction false} LatencyTracked(log: seq<Event>, m: ModelId)
    requires SinceAdded(log, m).Some?
    ensures TrackRun(log, m).health.Some?
    ensures 0.0 <= TrackRun(log, m).health.value.latencyAvgMs <= LargestLatency(SinceAdded(log, m).value, m) as real
  {
    var front, e := log[..|log| - 1], log[|log| - 1];
    TrackedCounts(front, m);
    if SinceAdded(front, m).Some? {
      LatencyTracked(front, m);
      LatencyStep(TrackRun(front, m), SinceAdded(front, m).value, e, m);
    }
  }

  lemma LatencyStep(t: ModelView, seg: seq<Event>, e: Event, m: ModelId)
    requires t.health.Some? && !(e.ModelRemoved? && e.modelId == m)
    requires 0.0 <= t.health.value.latencyAvgMs <= LargestLatency(seg, m) as real
    ensures var t' := TrackStep(t, m, e);
      t'.health.Some? && 0.0 <= t'.health.value.latencyAvgMs <= LargestLatency(seg + [e], m) as real
  {
    assert (seg + [e])[..|seg|] == seg;
    if Observes(e, m, true) {
      var o := ObservationOf(e).value.1;
      AverageBounds(t.health.value.latencyAvgMs, o.latencyMs as real, o.window, LargestLatency(seg + [e], m) as real);
    }
  }

  // ----- names alone do not determine the flag --------------------------------------------------------

  function BadProbes(m: ModelId, n: nat): seq<Event> {
    if n == 0 then [] else BadProbes(m, n - 1) + [ProbeFailed(m, "timeout")]
  }

  lemma {:induction false} AfterBadProbes(log: seq<Event>, m: ModelId, n: nat)
    requires TrackRun(log, m).health.Some? && n > 0
    ensures BadlyProbed(TrackRun(log, m), n, TrackRun(log + BadProbes(m, n), m))
  {
    var before := log + BadProbes(m, n - 1);
    assert log + BadProbes(m, n) == before + [ProbeFailed(m, "timeout")];
    RunSnoc(before, ProbeFailed(m, "timeout"), m);
    if n == 1 { assert before == log; } else { AfterBadProbes(log, m, n - 1); }
    BadlyProbedStep(TrackRun(log, m), n, TrackRun(before, m), m);
  }

  lemma BadlyProbedStep(t: ModelView, n: nat, before: ModelView, m: ModelId)
    requires t.health.Some? && n > 0 && if n == 1 then before == t else BadlyProbed(t, n - 1, before)
    ensures BadlyProbed(t, n, TrackStep(before, m, ProbeFailed(m, "timeout")))
  {
  }

  /** What `n` bad probes in a row leave. */
  ghost predicate BadlyProbed(t: ModelView, n: nat, t': ModelView)
    requires t.health.Some?
  {
    && t'.clock == t.clock && t'.health.Some?
    && t'.health.value.lastSuccess == t.health.value.lastSuccess
    && t'.health.value.lastFailure == InstantAt(t.clock)
    && t'.health.value.successCount == t.health.value.successCount
    && t'.health.value.failureCount == t.health.value.failureCount + n
    && t'.health.value.garbage == Garbage(t'.health.value)
  }

  lemma RunSnoc(log: seq<Event>, e: Event, m: ModelId)
    ensures TrackRun(log + [e], m) == TrackStep(TrackRun(log, m), m, e)
  {
    assert (log + [e])[..|log|] == log;
  }

  /** The garbage flag, unlike what `Noninterference` covers, is not a function of the events naming a
      model: after one good and n >= 4 bad probes, with any events that do not name the model in between, it is
      garbage exactly when those have moved the clock; without a restart among them, exactly when one of
      them ticks. */
  lemma FlagDependsOnOthers(m: Model, between: seq<Event>, n: nat)
    requires n >= 4 && forall i :: 0 <= i < |between| ==> !Names(between[i], m.id)
    ensures var log := [ModelAdded(m, Bundled), ProbeUpdated(m.id, 1.0, 100)] + between + BadProbes(m.id, n);
      && m.id in Replay(log).health
      && (Replay(log).health[m.id].garbage <==> ClockAfter(between) > 0)
      && (NoRestart(between) ==>
            (Replay(log).health[m.id].garbage <==> exists i :: 0 <= i < |between| && Ticks(between[i]) > 0))
  {
    var start := [ModelAdded(m, Bundled), ProbeUpdated(m.id, 1.0, 100)];
    AfterGoodProbe(m);
    AfterOthers(start, m.id, between);
    FlagAfterBadProbes(start + between, m.id, n);
    if NoRestart(between) {
      ClockOver(between, 0, |between|);
      assert between[..|between|] == between && between[..0] == [];
    }
  }

  /** Events that do not name a model leave its health alone, and move the clock by themselves. */
  lemma {:induction false} AfterOthers(log: seq<Event>, m: ModelId, between: seq<Event>)
    requires TrackRun(log, m).clock == 0 && forall i :: 0 <= i < |between| ==> !Names(between[i], m)
    ensures TrackRun(log + between, m).health == TrackRun(log, m).health
    ensures TrackRun(log + between, m).clock == ClockAfter(between)
  {
    if between == [] {
      assert log + between == log;
    } else {
      var front, e := between[..|between| - 1], between[|between| - 1];
      AfterOthers(log, m, front);
      RunSnoc(log + front, e, m);
      assert log + between == (log + front) + [e];
      OtherStep(TrackRun(log + front, m), e, m);
    }
  }

  lemma OtherStep(t: ModelView, e: Event, m: ModelId)
    requires !Names(e, m)
    ensures TrackStep(t, m, e).health == t.health
    ensures TrackStep(t, m, e).clock == if e.DaemonStarted? then 0 else t.clock + Ticks(e)
  {
  }

  lemma FlagAfterBadProbes(log: seq<Event>, m: ModelId, n: nat)
    requires n >= 4 && TrackRun(log, m).health.Some?
    requires var h := TrackRun(log, m).health.value; h.successCount == 1 && h.failureCount == 0
    ensures var t, v := TrackRun(log, m), Replay(log + BadProbes(m, n));
      && m in v.health
      && (v.health[m].garbage <==> InstantAt(t.clock).After(t.health.value.lastSuccess))
  {
    var after := log + BadProbes(m, n);
    AfterBadProbes(log, m, n);
    TrackReplay(after, m);
    FlagOf(TrackRun(log, m), n, TrackRun(after, m));
  }

  lemma FlagOf(t: ModelView, n: nat, t': ModelView)
    requires n >= 4 && t.health.Some? && BadlyProbed(t, n, t')
    requires t.health.value.successCount == 1 && t.health.value.failureCount == 0
    ensures t'.health.value.garbage <==> InstantAt(t.clock).After(t.health.value.lastSuccess)
  {
    FewSuccesses(n);
  }

  lemma AfterGoodProbe(m: Model)
    ensures var t := TrackRun([ModelAdded(m, Bundled), ProbeUpdated(m.id, 1.0, 100)], m.id);
      && t.clock == 0 && t.health.Some? && t.health.value.lastSuccess == InstantAt(0)
      && t.health.value.successCount == 1 && t.health.value.failureCount == 0
  {
    var added, probe := [ModelAdded(m, Bundled)], ProbeUpdated(m.id, 1.0, 100);
    RunSnoc(added, probe, m.id);
    assert added + [probe] == [ModelAdded(m, Bundled), probe];
  }

  lemma FewSuccesses(n: nat)
    requires n >= 4
    ensures Under(1, n, GARBAGE_THRESHOLD)
  {
    if n == 4 {
      assert UnderReal(1.0, 5.0, 0.15);
    } else if n == 5 {
      assert UnderReal(1.0, 6.0, 0.15);
    }
  }
}
