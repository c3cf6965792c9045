/** What the provider's answers do, over a whole request: how many attempts are made, which proxies are
    dropped, and which rows of the table change.  Everything is said over the answers themselves. */
module Replies {
  import opened Types
  import opened ProxyStore
  import opened ProxyServer
  import opened Rotation

  /** Answers after which no further proxy is tried. */
  predicate Ends(streaming: bool, answer: Reply, attempt: nat) {
    || answer == Served || answer == AuthRefused
    || (!streaming && (answer == UnknownModel || (answer == OtherError && attempt >= 2)))
  }

  /** Answers that cost the proxy its place. */
  predicate Breaks(streaming: bool, answer: Reply) {
    answer == Broken || (streaming && (answer == UnknownModel || answer == OtherError))
  }

  /** The row after a failure: a tenth of the uptime lost, one more failure, inactive from the fifth on. */
  function FailedRow(r: ProxyRow, ts: int): ProxyRow {
    r.(lastCheck := Some(ts), uptimePct := r.uptimePct * 0.9, failCount := r.failCount + 1,
       active := r.active && r.failCount + 1 < 5)
  }

  /** The row after a success: a tenth of the way to full uptime, no failures, active. */
  function ServedRow(r: ProxyRow, ts: int): ProxyRow {
    r.(lastCheck := Some(ts), latencyMs := Some(0), uptimePct := r.uptimePct + (100.0 - r.uptimePct) * 0.1,
       failCount := 0, active := true)
  }

  /** One of these tries, the first of which was attempt number `attempt`, broke on the proxy `id`. */
  ghost predicate FailedIn(tries: seq<Entry>, streaming: bool, reply: nat -> Reply, attempt: nat, id: nat) {
    exists i :: 0 <= i < |tries| && tries[i].id == id && Breaks(streaming, reply(attempt + i))
  }

  lemma FailedCons(p: Entry, rest: seq<Entry>, streaming: bool, reply: nat -> Reply, attempt: nat, id: nat)
    ensures FailedIn([p] + rest, streaming, reply, attempt, id) <==>
      (p.id == id && Breaks(streaming, reply(attempt))) || FailedIn(rest, streaming, reply, attempt + 1, id)
  {
    var s := [p] + rest;
    if FailedIn(s, streaming, reply, attempt, id) {
      var i :| 0 <= i < |s| && s[i].id == id && Breaks(streaming, reply(attempt + i));
      if i > 0 { assert rest[i - 1].id == id && Breaks(streaming, reply(attempt + 1 + (i - 1))); }
    }
    if p.id == id && Breaks(streaming, reply(attempt)) {
      assert s[0].id == id && Breaks(streaming, reply(attempt + 0));
    }
    if FailedIn(rest, streaming, reply, attempt + 1, id) {
      var i :| 0 <= i < |rest| && rest[i].id == id && Breaks(streaming, reply(attempt + 1 + i));
      assert s[i + 1].id == id && Breaks(streaming, reply(attempt + (i + 1)));
    }
  }

  // ----- one attempt ----------------------------------------------------------------------------------------

  lemma RowAfter(r: ProxyRow, ts: int)
    requires RowHealthy(r)
    ensures Marked(r, false, None, ts) == FailedRow(r, ts)
    ensures Marked(r, true, None, ts) == ServedRow(r, ts)
  {
  }

  /** What one attempt through `p` leaves behind. */
  ghost predicate After(w: World, p: Entry, streaming: bool, answer: Reply, ts: int, attempt: nat, w': World) {
    p in w.pool && p.id in w.table.rows &&
    if answer == Served then
      && w'.table == w.table.(rows := w.table.rows[p.id := ServedRow(w.table.rows[p.id], ts)])
      && w'.pool == w.pool && w'.cursor == w.cursor + attempt
    else if Breaks(streaming, answer) then
      && w'.table == w.table.(rows := w.table.rows[p.id := FailedRow(w.table.rows[p.id], ts)])
      && w'.cursor == w.cursor && |w'.pool| == |w.pool| - 1
      && forall x :: x in w'.pool <==> x in w.pool && x.id != p.id
    else w' == w
  }

  lemma WorldAfter(w: World, p: Entry, streaming: bool, answer: Reply, ts: int, attempt: nat, verdict: Verdict)
    returns (w': World)
    requires Agrees(w) && p in w.pool && attempt >= 1 && verdict == Classify(streaming, answer, attempt)
    ensures w' == AfterAttempt(w, p.id, verdict, streaming, ts, attempt)
    ensures Agrees(w') && After(w, p, streaming, answer, ts, attempt, w')
  {
    w' := AfterAttempt(w, p.id, verdict, streaming, ts, attempt);
    AttemptAgrees(w, p, verdict, streaming, ts, attempt);
    RowAfter(w.table.rows[p.id], ts);
    if Breaks(streaming, answer) { DroppedOne(w.pool, p); }
  }

  lemma DroppedOne(pool: seq<Entry>, p: Entry)
    requires DistinctEntries(pool) && p in pool
    ensures |Dropped(pool, p.id)| == |pool| - 1
    ensures forall x :: x in Dropped(pool, p.id) <==> x in pool && x.id != p.id
  {
    DroppedAre(pool, p.id);
    var i :| 0 <= i < |pool| && pool[i] == p;
    DroppedAt(pool, i);
  }

  /** The first of the remaining attempts, told by its answer. */
  lemma FirstAnswer(w: World, streaming: bool, reply: nat -> Reply, ts: int, attempt: nat, total: nat)
    returns (p: Entry, w': World, rest: LoopResult)
    requires Agrees(w) && 1 <= attempt < total && w.pool != []
    ensures Agrees(w') && After(w, p, streaming, reply(attempt), ts, attempt, w')
    ensures rest == AttemptLoop(w', streaming, reply, ts, attempt + 1, total)
    ensures AttemptLoop(w, streaming, reply, ts, attempt, total) == Joined(w', p, streaming, reply, rest, attempt)
  {
    var verdict;
    p, verdict, w' := FirstAttempt(w, streaming, reply, ts, attempt, total);
    var _ := WorldAfter(w, p, streaming, reply(attempt), ts, attempt, verdict);
    rest := AttemptLoop(w', streaming, reply, ts, attempt + 1, total);
  }

  // ----- the whole loop ---------------------------------------------------------------------------------------

  /** A statement about loops from a world and an attempt number on. */
  type Claim = (World, LoopResult, nat) -> bool

  /** It holds of a loop with nothing to do, ... */
  ghost predicate HoldsIdle(claim: Claim, total: nat) {
    forall v: World, a: nat :: a >= 1 && (a >= total || v.pool == []) ==> claim(v, LoopResult(v, [], false), a)
  }

  /** ... of one whose first answer ends it, and of one that goes on when it holds of the rest. */
  ghost predicate HoldsOn(claim: Claim, streaming: bool, reply: nat -> Reply, ts: int, total: nat) {
    forall v: World, p, v': World, rest: LoopResult, a: nat ::
      1 <= a < total && After(v, p, streaming, reply(a), ts, a, v')
      && (Ends(streaming, reply(a), a) || claim(v', rest, a + 1)) ==>
        claim(v, Joined(v', p, streaming, reply, rest, a), a)
  }

  /** The result of a loop by its first answer and the result of the rest. */
  function Joined(w': World, p: Entry, streaming: bool, reply: nat -> Reply, rest: LoopResult, attempt: nat)
    : LoopResult
  {
    if Ends(streaming, reply(attempt), attempt) then LoopResult(w', [p], reply(attempt) == Served)
    else rest.Behind([p])
  }

  /** Then it holds of every loop. */
  lemma {:induction false} LoopInduction(
    claim: Claim, w: World, streaming: bool, reply: nat -> Reply, ts: int, attempt: nat, total: nat)
    requires Agrees(w) && attempt >= 1
    requires HoldsIdle(claim, total) && HoldsOn(claim, streaming, reply, ts, total)
    ensures claim(w, AttemptLoop(w, streaming, reply, ts, attempt, total), attempt)
    decreases total - attempt
  {
    if attempt < total && w.pool != [] {
      var p, w', rest := FirstAnswer(w, streaming, reply, ts, attempt, total);
      if !Ends(streaming, reply(attempt), attempt) {
        LoopInduction(claim, w', streaming, reply, ts, attempt + 1, total);
      }
      JoinClaim(claim, w, p, w', rest, streaming, reply, ts, attempt, total);
    } else {
      assert AttemptLoop(w, streaming, reply, ts, attempt, total) == LoopResult(w, [], false);
    }
  }

  lemma JoinClaim(
    claim: Claim, w: World, p: Entry, w': World, rest: LoopResult,
    streaming: bool, reply: nat -> Reply, ts: int, attempt: nat, total: nat)
    requires HoldsOn(claim, streaming, reply, ts, total)
    requires 1 <= attempt < total && After(w, p, streaming, reply(attempt), ts, attempt, w')
    requires Ends(streaming, reply(attempt), attempt) || claim(w', rest, attempt + 1)
    ensures claim(w, Joined(w', p, streaming, reply, rest, attempt), attempt)
  {
  }

  /** How many attempts a loop makes that has proxies enough for all of them. */
  ghost predicate RightLength(r: LoopResult, streaming: bool, reply: nat -> Reply, attempt: nat, total: nat) {
    var n := |r.tries|;
    && n <= total - attempt && (attempt < total ==> n > 0)
    && (forall i :: attempt <= i < attempt + n - 1 ==> !Ends(streaming, reply(i), i))
    && (n > 0 ==> Ends(streaming, reply(attempt + n - 1), attempt + n - 1) || attempt + n == total)
    && (r.served <==> n > 0 && reply(attempt + n - 1) == Served)
  }

  lemma LengthFrom(w: World, streaming: bool, reply: nat -> Reply, ts: int, attempt: nat, total: nat)
    requires Agrees(w) && 1 <= attempt <= total && total - attempt <= |w.pool|
    ensures RightLength(AttemptLoop(w, streaming, reply, ts, attempt, total), streaming, reply, attempt, total)
  {
    var claim := LengthClaim(streaming, reply, total);
    LengthHolds(streaming, reply, ts, total);
    LoopInduction(claim, w, streaming, reply, ts, attempt, total);
  }

  ghost function LengthClaim(streaming: bool, reply: nat -> Reply, total: nat): Claim {
    (v: World, r: LoopResult, a: nat) => a <= total <= a + |v.pool| ==> RightLength(r, streaming, reply, a, total)
  }

  lemma LengthHolds(streaming: bool, reply: nat -> Reply, ts: int, total: nat)
    ensures HoldsIdle(LengthClaim(streaming, reply, total), total)
    ensures HoldsOn(LengthClaim(streaming, reply, total), streaming, reply, ts, total)
  {
    var claim := LengthClaim(streaming, reply, total);
    forall v: World, a: nat | a >= 1 && (a >= total || v.pool == []) ensures claim(v, LoopResult(v, [], false), a) {
      var idle := LoopResult(v, [], false);
      assert a <= total <= a + |v.pool| ==> RightLength(idle, streaming, reply, a, total);
    }
    forall v: World, p, v': World, rest: LoopResult, a: nat |
      1 <= a < total && After(v, p, streaming, reply(a), ts, a, v')
      && (Ends(streaming, reply(a), a) || claim(v', rest, a + 1))
      ensures claim(v, Joined(v', p, streaming, reply, rest, a), a)
    {
    }
  }

  /** What a loop leaves of the pool: what it tried was in it, and exactly the broken ones are gone. */
  ghost predicate PoolEffect(w: World, r: LoopResult, streaming: bool, reply: nat -> Reply, attempt: nat) {
    && (forall x :: x in r.tries ==> x in w.pool)
    && (forall x :: x in r.world.pool <==> x in w.pool && !FailedIn(r.tries, streaming, reply, attempt, x.id))
  }

  /** What it leaves of one row. */
  ghost function RowEffect(
    row: ProxyRow, id: nat, r: LoopResult, streaming: bool, reply: nat -> Reply, ts: int, attempt: nat): ProxyRow
  {
    if FailedIn(r.tries, streaming, reply, attempt, id) then FailedRow(row, ts)
    else if r.served && r.tries != [] && r.tries[|r.tries| - 1].id == id then ServedRow(row, ts)
    else row
  }

  ghost predicate TableEffect(w: World, r: LoopResult, streaming: bool, reply: nat -> Reply, ts: int, attempt: nat) {
    && (r.served ==> r.tries != [])
    && r.world.table.rows.Keys == w.table.rows.Keys && r.world.table.nextId == w.table.nextId
    && (forall id :: id in w.table.rows ==>
          r.world.table.rows[id] == RowEffect(w.table.rows[id], id, r, streaming, reply, ts, attempt))
  }

  ghost predicate RightEffect(w: World, r: LoopResult, streaming: bool, reply: nat -> Reply, ts: int, attempt: nat) {
    && PoolEffect(w, r, streaming, reply, attempt)
    && TableEffect(w, r, streaming, reply, ts, attempt)
    && (!r.served && NoneBreaks(streaming, reply, attempt, |r.tries|) ==> r.world == w)
  }

  /** None of `n` answers from `attempt` on breaks its proxy. */
  ghost predicate NoneBreaks(streaming: bool, reply: nat -> Reply, attempt: nat, n: nat) {
    forall j :: attempt <= j < attempt + n ==> !Breaks(streaming, reply(j))
  }

  lemma EffectBehind(
    w: World, p: Entry, w': World, r: LoopResult, streaming: bool, reply: nat -> Reply, ts: int, attempt: nat)
    requires !Ends(streaming, reply(attempt), attempt) && After(w, p, streaming, reply(attempt), ts, attempt, w')
    requires RightEffect(w', r, streaming, reply, ts, attempt + 1)
    ensures RightEffect(w, r.Behind([p]), streaming, reply, ts, attempt)
  {
    PoolBehind(w, p, w', r, streaming, reply, ts, attempt);
    TableBehind(w, p, w', r, streaming, reply, ts, attempt);
    if NoneBreaks(streaming, reply, attempt, |r.tries| + 1) {
      assert !Breaks(streaming, reply(attempt)) && NoneBreaks(streaming, reply, attempt + 1, |r.tries|);
    }
  }

  lemma PoolBehind(
    w: World, p: Entry, w': World, r: LoopResult, streaming: bool, reply: nat -> Reply, ts: int, attempt: nat)
    requires !Ends(streaming, reply(attempt), attempt) && After(w, p, streaming, reply(attempt), ts, attempt, w')
    requires PoolEffect(w', r, streaming, reply, attempt + 1)
    ensures PoolEffect(w, r.Behind([p]), streaming, reply, attempt)
  {
    forall x ensures x in r.world.pool <==> x in w.pool && !FailedIn([p] + r.tries, streaming, reply, attempt, x.id) {
      FailedCons(p, r.tries, streaming, reply, attempt, x.id);
    }
  }

  lemma TableBehind(
    w: World, p: Entry, w': World, r: LoopResult, streaming: bool, reply: nat -> Reply, ts: int, attempt: nat)
    requires !Ends(streaming, reply(attempt), attempt) && After(w, p, streaming, reply(attempt), ts, attempt, w')
    requires TableEffect(w', r, streaming, reply, ts, attempt + 1)
    requires Breaks(streaming, reply(attempt)) ==>
      !FailedIn(r.tries, streaming, reply, attempt + 1, p.id) && (r.served ==> r.tries[|r.tries| - 1].id != p.id)
    ensures TableEffect(w, r.Behind([p]), streaming, reply, ts, attempt)
  {
    var broke := Breaks(streaming, reply(attempt));
    forall id | id in w.table.rows
      ensures r.world.table.rows[id] == RowEffect(w.table.rows[id], id, r.Behind([p]), streaming, reply, ts, attempt)
    {
      RowBehind(w.table.rows[id], id, p, r, streaming, reply, ts, attempt);
      assert w'.table.rows[id] == if broke && id == p.id then FailedRow(w.table.rows[id], ts) else w.table.rows[id];
    }
  }

  lemma RowBehind(
    row: ProxyRow, id: nat, p: Entry, r: LoopResult, streaming: bool, reply: nat -> Reply, ts: int, attempt: nat)
    requires r.served ==> r.tries != []
    requires Breaks(streaming, reply(attempt)) ==>
      !FailedIn(r.tries, streaming, reply, attempt + 1, p.id) && (r.served ==> r.tries[|r.tries| - 1].id != p.id)
    ensures var row' := if Breaks(streaming, reply(attempt)) && id == p.id then FailedRow(row, ts) else row;
      RowEffect(row', id, r, streaming, reply, ts, attempt + 1)
        == RowEffect(row, id, r.Behind([p]), streaming, reply, ts, attempt)
  {
    FailedCons(p, r.tries, streaming, reply, attempt, id);
    if r.tries != [] { assert ([p] + r.tries)[|r.tries|] == r.tries[|r.tries| - 1]; }
  }

  ghost function EffectClaim(streaming: bool, reply: nat -> Reply, ts: int): Claim {
    (v: World, r: LoopResult, a: nat) => RightEffect(v, r, streaming, reply, ts, a)
  }

  lemma EffectHoldsIdle(streaming: bool, reply: nat -> Reply, ts: int, total: nat)
    ensures HoldsIdle(EffectClaim(streaming, reply, ts), total)
  {
    forall v: World, a: nat ensures RightEffect(v, LoopResult(v, [], false), streaming, reply, ts, a) {
    }
  }

  lemma EffectHoldsOn(streaming: bool, reply: nat -> Reply, ts: int, total: nat)
    ensures HoldsOn(EffectClaim(streaming, reply, ts), streaming, reply, ts, total)
  {
    var claim := EffectClaim(streaming, reply, ts);
    forall v: World, p, v': World, rest: LoopResult, a: nat |
      1 <= a < total && After(v, p, streaming, reply(a), ts, a, v')
      && (Ends(streaming, reply(a), a) || claim(v', rest, a + 1))
      ensures claim(v, Joined(v', p, streaming, reply, rest, a), a)
    {
      ClaimJoined(v, p, v', rest, streaming, reply, ts, a);
    }
  }

  lemma ClaimJoined(
    w: World, p: Entry, w': World, rest: LoopResult, streaming: bool, reply: nat -> Reply, ts: int, attempt: nat)
    requires After(w, p, streaming, reply(attempt), ts, attempt, w')
    requires Ends(streaming, reply(attempt), attempt) || EffectClaim(streaming, reply, ts)(w', rest, attempt + 1)
    ensures EffectClaim(streaming, reply, ts)(w, Joined(w', p, streaming, reply, rest, attempt), attempt)
  {
    EffectJoined(w, p, w', rest, streaming, reply, ts, attempt);
  }

  lemma EffectJoined(
    w: World, p: Entry, w': World, rest: LoopResult, streaming: bool, reply: nat -> Reply, ts: int, attempt: nat)
    requires After(w, p, streaming, reply(attempt), ts, attempt, w')
    requires Ends(streaming, reply(attempt), attempt) || RightEffect(w', rest, streaming, reply, ts, attempt + 1)
    ensures RightEffect(w, Joined(w', p, streaming, reply, rest, attempt), streaming, reply, ts, attempt)
  {
    if !Ends(streaming, reply(attempt), attempt) { EffectBehind(w, p, w', rest, streaming, reply, ts, attempt); }
  }

  lemma EffectFrom(w: World, streaming: bool, reply: nat -> Reply, ts: int, attempt: nat, total: nat)
    requires Agrees(w) && attempt >= 1
    ensures RightEffect(w, AttemptLoop(w, streaming, reply, ts, attempt, total), streaming, reply, ts, attempt)
  {
    EffectHoldsIdle(streaming, reply, ts, total);
    EffectHoldsOn(streaming, reply, ts, total);
    LoopInduction(EffectClaim(streaming, reply, ts), w, streaming, reply, ts, attempt, total);
  }

  // ----- requests ---------------------------------------------------------------------------------------------

  function AtMostTwelve(n: nat): nat {
    if n < 12 then n else 12
  }

  /** A request through the pool makes attempts until the first answer that ends it, or as many as there are
      proxies, at most twelve; it is served iff the last answer serves it. */
  lemma AttemptsExactly(w: World, streaming: bool, reply: nat -> Reply, ts: int)
    requires Agrees(w) && w.pool != []
    ensures var r := Completion(w, true, streaming, reply, ts);
      var n := |r.tries|;
      && 1 <= n <= AtMostTwelve(|w.pool|)
      && (forall i :: 1 <= i < n ==> !Ends(streaming, reply(i), i))
      && (Ends(streaming, reply(n), n) || n == AtMostTwelve(|w.pool|))
      && (r.served <==> reply(n) == Served)
  {
    LengthFrom(w, streaming, reply, ts, 1, Attempts(w.pool));
  }

  /** What it leaves behind: it drops exactly the proxies whose answer broke, marks exactly their rows as
      failed and the row of the proxy that served it as served, and changes nothing else. */
  lemma EffectExactly(w: World, streaming: bool, reply: nat -> Reply, ts: int)
    requires Agrees(w) && w.pool != []
    ensures var r := Completion(w, true, streaming, reply, ts);
      && (forall x :: x in r.world.pool <==> x in w.pool && !FailedIn(r.tries, streaming, reply, 1, x.id))
      && r.world.table.rows.Keys == w.table.rows.Keys && r.world.table.nextId == w.table.nextId
      && (forall id :: id in w.table.rows ==>
            r.world.table.rows[id] == RowEffect(w.table.rows[id], id, r, streaming, reply, ts, 1))
      && (!r.served && NoneBreaks(streaming, reply, 1, |r.tries|) ==> r.world == w)
  {
    EffectFrom(w, streaming, reply, ts, 1, Attempts(w.pool));
  }

  /** When the first answer that is not a rate limit ends a request without serving it, nothing has changed and
      no further proxy is tried.  Outside streaming that is a refused key, an unknown model, or any other
      error from the second attempt on; in streaming it is a refused key. */
  lemma RefusalStops(w: World, streaming: bool, reply: nat -> Reply, ts: int, k: nat)
    requires Agrees(w) && 1 <= k <= AtMostTwelve(|w.pool|)
    requires forall i :: 1 <= i < k ==> reply(i) == Reply.RateLimited
    requires reply(k) == AuthRefused || (!streaming && (reply(k) == UnknownModel || (reply(k) == OtherError && k >= 2)))
    ensures var r := Completion(w, true, streaming, reply, ts);
      r.world == w && !r.served && |r.tries| == k
  {
    EndsFirst(w, streaming, reply, ts, k);
    EffectExactly(w, streaming, reply, ts);
    assert NoneBreaks(streaming, reply, 1, k);
  }

  /** The first answer that ends a request is its last. */
  lemma EndsFirst(w: World, streaming: bool, reply: nat -> Reply, ts: int, k: nat)
    requires Agrees(w) && 1 <= k <= AtMostTwelve(|w.pool|) && Ends(streaming, reply(k), k)
    requires forall i :: 1 <= i < k ==> !Ends(streaming, reply(i), i)
    ensures var r := Completion(w, true, streaming, reply, ts);
      |r.tries| == k && (r.served <==> reply(k) == Served)
  {
    AttemptsExactly(w, streaming, reply, ts);
  }

  /** Outside streaming, another error on the first attempt leaves everything as it is and goes on to a second
      one when there is a second proxy. */
  lemma FirstErrorGoesOn(w: World, reply: nat -> Reply, ts: int)
    requires Agrees(w) && w.pool != [] && reply(1) == OtherError
    ensures var r := Completion(w, true, false, reply, ts);
      && (|r.tries| > 1 <==> |w.pool| > 1)
      && (|w.pool| == 1 ==> r.world == w && !r.served)
  {
    var r := Completion(w, true, false, reply, ts);
    AttemptsExactly(w, false, reply, ts);
    if |w.pool| == 1 {
      EffectExactly(w, false, reply, ts);
    }
  }
}
