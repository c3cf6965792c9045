/** Which proxies a request goes through.  Within a request the pool may shrink under the fixed
    cursor; across requests the cursor moves past what was used. */
module Rotation {
  import opened ProxyStore
  import opened ProxyServer

  /** The picks made from `base` on, when the i-th pick is dropped from the pool iff `drops[i]`. */
  function Rotate(pool: seq<Entry>, base: nat, drops: seq<bool>): seq<Entry>
    decreases |drops|
  {
    if drops == [] || pool == [] then []
    else
      var p := At(pool, base);
      [p] + Rotate(if drops[0] then Dropped(pool, p.id) else pool, base + 1, drops[1..])
  }

  /** For each attempt the provider's replies lead to, whether it drops its proxy. */
  function Pattern(streaming: bool, reply: nat -> Reply, attempt: nat, total: nat): seq<bool>
    decreases total - attempt
  {
    if attempt >= total then []
    else
      var verdict := Classify(streaming, reply(attempt), attempt);
      [verdict == Drop] +
      if verdict == Done || verdict == Stop then [] else Pattern(streaming, reply, attempt + 1, total)
  }

  ghost predicate PositiveIds(pool: seq<Entry>) {
    forall p :: p in pool ==> p.id > 0
  }

  /** Which proxies a request goes through is decided by the pool, the cursor and the pattern of drops alone. */
  lemma LoopRotates(w: World, streaming: bool, reply: nat -> Reply, ts: int, attempt: nat, total: nat)
    requires attempt >= 1 && PositiveIds(w.pool)
    ensures AttemptLoop(w, streaming, reply, ts, attempt, total).tries
         == Rotate(w.pool, w.cursor + (attempt - 1), Pattern(streaming, reply, attempt, total))
  {
    LoopRotatesFrom(w, streaming, reply, ts, attempt, total, w.cursor + (attempt - 1));
  }

  lemma {:induction false} LoopRotatesFrom(
    w: World, streaming: bool, reply: nat -> Reply, ts: int, attempt: nat, total: nat, base: nat)
    requires attempt >= 1 && PositiveIds(w.pool) && base == w.cursor + (attempt - 1)
    ensures AttemptLoop(w, streaming, reply, ts, attempt, total).tries
         == Rotate(w.pool, base, Pattern(streaming, reply, attempt, total))
    decreases total - attempt
  {
    if attempt < total && w.pool != [] {
      var n := NextWorld(w, streaming, reply, ts, attempt);
      NextIs(w, streaming, reply, ts, attempt);
      if n.goesOn { LoopRotatesFrom(n.world, streaming, reply, ts, attempt + 1, total, base + 1); }
    }
  }

  /** What one attempt leads to: the world after it, whether the loop goes on, and whether the proxy was dropped. */
  datatype Next = Next(world: World, goesOn: bool, drop: bool)

  function NextWorld(w: World, streaming: bool, reply: nat -> Reply, ts: int, attempt: nat): Next {
    if w.pool == [] || attempt == 0 then Next(w, false, false)
    else
      var verdict := Classify(streaming, reply(attempt), attempt);
      Next(
        AfterAttempt(w, At(w.pool, w.cursor + (attempt - 1)).id, verdict, streaming, ts, attempt),
        verdict == Continue || verdict == Drop,
        verdict == Drop)
  }

  lemma NextIs(w: World, streaming: bool, reply: nat -> Reply, ts: int, attempt: nat)
    requires attempt >= 1 && w.pool != [] && PositiveIds(w.pool)
    ensures var p, n := At(w.pool, w.cursor + (attempt - 1)), NextWorld(w, streaming, reply, ts, attempt);
      n.goesOn ==> (
        && n.world.pool == (if n.drop then Dropped(w.pool, p.id) else w.pool)
        && n.world.cursor == w.cursor && PositiveIds(n.world.pool))
  {
    var p, verdict := At(w.pool, w.cursor + (attempt - 1)), Classify(streaming, reply(attempt), attempt);
    if verdict == Continue || verdict == Drop { AfterKeptOrDropped(w, p, verdict, streaming, ts, attempt); }
  }

  lemma AfterKeptOrDropped(w: World, p: Entry, verdict: Verdict, streaming: bool, ts: int, attempt: nat)
    requires attempt >= 1 && PositiveIds(w.pool) && p in w.pool && (verdict == Continue || verdict == Drop)
    ensures var w' := AfterAttempt(w, p.id, verdict, streaming, ts, attempt);
      && w'.cursor == w.cursor && w'.pool == (if verdict == Drop then Dropped(w.pool, p.id) else w.pool)
      && PositiveIds(w'.pool)
  {
    DroppedAre(w.pool, p.id);
  }

  lemma PatternStep(streaming: bool, reply: nat -> Reply, attempt: nat, total: nat)
    requires attempt < total
    ensures var verdict := Classify(streaming, reply(attempt), attempt);
      Pattern(streaming, reply, attempt, total) ==
      [verdict == Drop] +
      if verdict == Done || verdict == Stop then [] else Pattern(streaming, reply, attempt + 1, total)
  {
  }

  lemma {:induction false} PatternLength(streaming: bool, reply: nat -> Reply, attempt: nat, total: nat)
    requires attempt <= total
    ensures |Pattern(streaming, reply, attempt, total)| <= total - attempt
    decreases total - attempt
  {
    if attempt < total { PatternLength(streaming, reply, attempt + 1, total); }
  }

  // ----- arithmetic of the cursor ---------------------------------------------------------------------------

  /** `Wrap` forgets whole turns. */
  lemma {:induction false} WholeTurns(q: nat, n: nat, r: nat)
    requires r < n
    ensures q * n >= 0 && Wrap(q * n + r, n) == r
  {
    if q > 0 {
      WholeTurns(q - 1, n, r);
      assert q * n + r - n == (q - 1) * n + r;
      assert (q - 1) * n >= 0;
    }
  }

  lemma {:induction false} WrapShift(x: nat, d: nat, n: nat)
    requires 0 < d < n
    ensures Wrap(x + d, n) == if Wrap(x, n) + d < n then Wrap(x, n) + d else Wrap(x, n) + d - n
  {
    if x >= n { WrapShift(x - n, d, n); }
  }

  /** Fewer than n steps apart, two cursor positions meet at different entries. */
  lemma DifferentPositions(base: nat, i: nat, j: nat, n: nat)
    requires i < j < i + n
    ensures Wrap(base + i, n) != Wrap(base + j, n)
  {
    WrapShift(base + i, j - i, n);
  }

  // ----- no proxy twice within a request ----------------------------------------------------------------------

  lemma {:induction false} DroppedAt(pool: seq<Entry>, i: nat)
    requires DistinctEntries(pool) && i < |pool|
    ensures Dropped(pool, pool[i].id) == pool[..i] + pool[i + 1..]
  {
    var front, last := pool[..|pool| - 1], pool[|pool| - 1];
    if i < |front| {
      DroppedAt(front, i);
      assert front[..i] == pool[..i];
      assert front[i + 1..] + [last] == pool[i + 1..];
    } else {
      DroppedNothing(front, last.id);
    }
  }

  lemma {:induction false} DroppedNothing(pool: seq<Entry>, id: nat)
    requires forall k :: 0 <= k < |pool| ==> pool[k].id != id
    ensures Dropped(pool, id) == pool
  {
    if pool != [] {
      DroppedNothing(pool[..|pool| - 1], id);
      assert pool == pool[..|pool| - 1] + [pool[|pool| - 1]];
    }
  }

  /** Picks in a row from an unchanged pool. */
  function Window(pool: seq<Entry>, base: nat, n: nat): seq<Entry>
    requires pool != []
  {
    seq(n, i requires 0 <= i < n => At(pool, base + i))
  }

  /** As long as nothing is dropped, the picks are a window of the pool. */
  lemma {:induction false} KeepPrefix(pool: seq<Entry>, base: nat, drops: seq<bool>, j: nat)
    requires pool != [] && j <= |drops| && forall i :: 0 <= i < j ==> !drops[i]
    ensures Rotate(pool, base, drops) == Window(pool, base, j) + Rotate(pool, base + j, drops[j..])
    decreases j
  {
    if j == 0 {
      assert drops[0..] == drops;
      assert Window(pool, base, 0) == [];
    } else {
      var later, rest := drops[1..], Rotate(pool, base + j, drops[j..]);
      assert Rotate(pool, base + 1, later) == Window(pool, base + 1, j - 1) + rest by {
        KeepPrefix(pool, base + 1, later, j - 1);
        assert later[j - 1..] == drops[j..];
      }
      WindowHead(pool, base, j);
    }
  }

  /** Apart from the last attempt, whatever is dropped is dropped before anything is kept. */
  ghost predicate DropsFirst(drops: seq<bool>) {
    forall i, j :: 0 <= i < j < |drops| - 1 && drops[j] ==> drops[i]
  }

  lemma {:induction false} RotateWithin(pool: seq<Entry>, base: nat, drops: seq<bool>)
    ensures forall p :: p in Rotate(pool, base, drops) ==> p in pool
    decreases |drops|
  {
    if drops != [] && pool != [] {
      var p := At(pool, base);
      DroppedAre(pool, p.id);
      RotateWithin(if drops[0] then Dropped(pool, p.id) else pool, base + 1, drops[1..]);
    }
  }

  lemma LastPick(pool: seq<Entry>, base: nat, last: seq<bool>)
    requires pool != [] && |last| <= 1
    ensures Rotate(pool, base, last) == Window(pool, base, |last|)
  {
    if last != [] { assert last[1..] == []; }
  }

  lemma KeepAll(pool: seq<Entry>, base: nat, drops: seq<bool>)
    requires pool != [] && drops != [] && forall i :: 0 <= i < |drops| - 1 ==> !drops[i]
    ensures Rotate(pool, base, drops) == Window(pool, base, |drops|)
  {
    var j := |drops| - 1;
    KeepPrefix(pool, base, drops, j);
    LastPick(pool, base + j, drops[j..]);
    WindowJoin(pool, base, j, 1);
  }

  lemma WindowDistinct(pool: seq<Entry>, base: nat, n: nat)
    requires DistinctEntries(pool) && 0 < n <= |pool|
    ensures DistinctEntries(Window(pool, base, n))
  {
    var s := Window(pool, base, n);
    forall i, j | 0 <= i < j < |s| ensures s[i].id != s[j].id {
      DifferentPositions(base, i, j, |pool|);
    }
  }

  lemma {:induction false} NoRepeat(pool: seq<Entry>, base: nat, drops: seq<bool>)
    requires DistinctEntries(pool) && |drops| <= |pool| && DropsFirst(drops)
    ensures DistinctEntries(Rotate(pool, base, drops))
    decreases |drops|
  {
    if drops != [] {
      if drops[0] {
        var k := Wrap(base, |pool|);
        var p := pool[k];
        DroppedAt(pool, k);
        DroppedAre(pool, p.id);
        NoRepeat(Dropped(pool, p.id), base + 1, drops[1..]);
        RotateWithin(Dropped(pool, p.id), base + 1, drops[1..]);
        FreshHead(p, Rotate(Dropped(pool, p.id), base + 1, drops[1..]));
      } else {
        KeepAll(pool, base, drops);
        WindowDistinct(pool, base, |drops|);
      }
    }
  }

  lemma FreshHead(p: Entry, rest: seq<Entry>)
    requires DistinctEntries(rest) && forall x :: x in rest ==> x.id != p.id
    ensures DistinctEntries([p] + rest)
  {
    var s := [p] + rest;
    forall i, j | 0 <= i < j < |s| ensures s[i].id != s[j].id {
      assert s[j] == rest[j - 1] && rest[j - 1] in rest;
      if i > 0 { assert s[i] == rest[i - 1]; }
    }
  }

  function FirstDrop(drops: seq<bool>): (j: nat)
    ensures j <= |drops| && (forall i :: 0 <= i < j ==> !drops[i]) && (j < |drops| ==> drops[j])
  {
    if drops == [] || drops[0] then 0 else 1 + FirstDrop(drops[1..])
  }

  ghost predicate AlwaysRepeats(n: nat, base: nat, drops: seq<bool>) {
    forall pool: seq<Entry> :: |pool| == n && DistinctEntries(pool) ==> !DistinctEntries(Rotate(pool, base, drops))
  }

  /** A cursor at which a drop behind a kept proxy makes the request try a proxy twice. */
  lemma {:induction false} RepeatingCursor(n: nat, drops: seq<bool>, atLeast: nat) returns (base: nat)
    requires |drops| <= n && !DropsFirst(drops)
    ensures base >= atLeast && AlwaysRepeats(n, base, drops)
  {
    if drops[0] {
      TailStillBad(drops);
      var later := RepeatingCursor(n - 1, drops[1..], atLeast + 1);
      base := later - 1;
      assert base + 1 == later;
      RepeatsLater(n, base, drops);
    } else {
      base := RepeatsAfterKept(n, drops, atLeast);
    }
  }

  lemma RepeatsLater(n: nat, base: nat, drops: seq<bool>)
    requires n > 0 && drops != [] && drops[0] && AlwaysRepeats(n - 1, base + 1, drops[1..])
    ensures AlwaysRepeats(n, base, drops)
  {
    forall pool: seq<Entry> | |pool| == n && DistinctEntries(pool) ensures !DistinctEntries(Rotate(pool, base, drops)) {
      var k := Wrap(base, n);
      DroppedAt(pool, k);
      DroppedAre(pool, pool[k].id);
      RepeatBehind(pool[k], Rotate(Dropped(pool, pool[k].id), base + 1, drops[1..]));
    }
  }

  lemma RepeatsAfterKept(n: nat, drops: seq<bool>, atLeast: nat) returns (base: nat)
    requires |drops| <= n && !DropsFirst(drops) && !drops[0]
    ensures base >= atLeast && AlwaysRepeats(n, base, drops)
  {
    var j := FirstDrop(drops);
    assert 0 < j < |drops| - 1 by {
      var a, b :| 0 <= a < b < |drops| - 1 && drops[b] && !drops[a];
    }
    var c, t := atLeast + j, 0;
    t := n - 3 + c * (n - 1);
    assert t >= c by { MultipleGrows(c, n - 1); }
    assert t * n >= t by { MultipleGrows(t, n); }
    base := t * n - j;
    forall pool: seq<Entry> | |pool| == n && DistinctEntries(pool) ensures !DistinctEntries(Rotate(pool, base, drops)) {
      RepeatAt(pool, base, drops, j, t, c);
    }
  }

  lemma TailStillBad(drops: seq<bool>)
    requires !DropsFirst(drops) && drops[0]
    ensures !DropsFirst(drops[1..])
  {
    var a, b :| 0 <= a < b < |drops| - 1 && drops[b] && !drops[a];
    assert drops[1..][b - 1] && !drops[1..][a - 1];
  }

  lemma RepeatBehind(p: Entry, rest: seq<Entry>)
    requires !DistinctEntries(rest)
    ensures !DistinctEntries([p] + rest)
  {
    var i, j :| 0 <= i < j < |rest| && rest[i].id == rest[j].id;
    assert ([p] + rest)[i + 1] == rest[i] && ([p] + rest)[j + 1] == rest[j];
  }

  /** The pick before the drop is the last entry, the dropped one the first, and the pick after the drop
      is the last entry of the shrunken pool: the same proxy again. */
  lemma RepeatAt(pool: seq<Entry>, base: nat, drops: seq<bool>, j: nat, t: nat, c: nat)
    requires DistinctEntries(pool) && |pool| >= 3 && 0 < j && j + 1 < |drops|
    requires (forall i :: 0 <= i < j ==> !drops[i]) && drops[j]
    requires t == |pool| - 3 + c * (|pool| - 1) && base + j == t * |pool| && t > 0
    ensures !DistinctEntries(Rotate(pool, base, drops))
  {
    var n := |pool|;
    KeepPrefix(pool, base, drops, j);
    CursorPositions(n, base, j, t, c);
    var tail := Rotate(pool, base + j, drops[j..]);
    assert |tail| >= 2 && tail[1] == pool[n - 1] by { SecondOfTail(pool, base + j, drops[j..]); }
    assert Window(pool, base, j)[j - 1] == At(pool, base + (j - 1)) == pool[n - 1];
    SameAgain(Window(pool, base, j), tail);
  }

  /** The last pick before a point and the second one after it are the same. */
  lemma SameAgain(before: seq<Entry>, tail: seq<Entry>)
    requires before != [] && |tail| >= 2 && before[|before| - 1] == tail[1]
    ensures !DistinctEntries(before + tail)
  {
    var s := before + tail;
    assert s[|before| - 1] == before[|before| - 1] && s[|before| + 1] == tail[1];
  }

  lemma SecondOfTail(pool: seq<Entry>, base: nat, drops: seq<bool>)
    requires DistinctEntries(pool) && |pool| >= 3 && |drops| >= 2 && drops[0]
    requires Wrap(base, |pool|) == 0 && Wrap(base + 1, |pool| - 1) == |pool| - 2
    ensures |Rotate(pool, base, drops)| >= 2 && Rotate(pool, base, drops)[1] == pool[|pool| - 1]
  {
    DroppedAt(pool, 0);
    var smaller := Dropped(pool, pool[0].id);
    assert |smaller| == |pool| - 1 && smaller[|pool| - 2] == pool[|pool| - 1];
  }

  lemma CursorPositions(n: nat, base: nat, j: nat, t: nat, c: nat)
    requires n >= 3 && j > 0 && t == n - 3 + c * (n - 1) && base + j == t * n && t > 0
    ensures Wrap(base + (j - 1), n) == n - 1 && Wrap(base + j, n) == 0 && Wrap(base + j + 1, n - 1) == n - 2
  {
    assert base + (j - 1) == (t - 1) * n + (n - 1) by { assert (t - 1) * n == t * n - n; }
    WholeTurns(t - 1, n, n - 1);
    WholeTurns(t, n, 0);
    assert base + j + 1 == (t + c) * (n - 1) + (n - 2) by {
      assert t * n == t * (n - 1) + t;
      assert (t + c) * (n - 1) == t * (n - 1) + c * (n - 1);
    }
    WholeTurns(t + c, n - 1, n - 2);
  }

  /** "Retries use fresh proxies" holds wherever the cursor stands exactly when, the last attempt aside,
      no proxy is dropped after one that was kept. */
  lemma FreshProxiesExactly(w: World, streaming: bool, reply: nat -> Reply, ts: int)
    requires Agrees(w) && w.pool != []
    ensures DropsFirst(Pattern(streaming, reply, 1, Attempts(w.pool))) <==>
      forall cursor: nat :: DistinctEntries(Completion(w.(cursor := cursor), true, streaming, reply, ts).tries)
  {
    var drops := Pattern(streaming, reply, 1, Attempts(w.pool));
    PatternLength(streaming, reply, 1, Attempts(w.pool));
    forall cursor: nat
      ensures Completion(w.(cursor := cursor), true, streaming, reply, ts).tries == Rotate(w.pool, cursor, drops)
    {
      LoopRotates(w.(cursor := cursor), streaming, reply, ts, 1, Attempts(w.pool));
    }
    if DropsFirst(drops) {
      forall cursor: nat ensures DistinctEntries(Completion(w.(cursor := cursor), true, streaming, reply, ts).tries) {
        NoRepeat(w.pool, cursor, drops);
      }
    } else {
      var cursor := RepeatingCursor(|w.pool|, drops, 0);
      assert !DistinctEntries(Completion(w.(cursor := cursor), true, streaming, reply, ts).tries);
    }
  }

  // ----- one request at its own cursor ----------------------------------------------------------------------

  /** The same rotation over positions: `left` lists which entries of the original pool remain. */
  function Tried(left: seq<nat>, base: nat, drops: seq<bool>): seq<nat>
    decreases |drops|
  {
    if drops == [] || left == [] then []
    else
      var k := Wrap(base, |left|);
      [left[k]] + Tried(if drops[0] then Except(left, k) else left, base + 1, drops[1..])
  }

  function Except(left: seq<nat>, k: nat): seq<nat>
    requires k < |left|
  {
    left[..k] + left[k + 1..]
  }

  function Indices(n: nat): seq<nat> {
    seq(n, i requires 0 <= i < n => i)
  }

  predicate Within(left: seq<nat>, n: nat) {
    forall i :: 0 <= i < |left| ==> left[i] < n
  }

  function Picked(pool: seq<Entry>, left: seq<nat>): seq<Entry>
    requires Within(left, |pool|)
  {
    seq(|left|, i requires 0 <= i < |left| => pool[left[i]])
  }

  lemma PickedDistinct(pool: seq<Entry>, left: seq<nat>)
    requires DistinctEntries(pool) && Within(left, |pool|)
    ensures DistinctEntries(Picked(pool, left)) <==> Distinct(left)
  {
    var s := Picked(pool, left);
    forall i, j | 0 <= i < j < |left| ensures s[i].id == s[j].id <==> left[i] == left[j] {
      if left[i] < left[j] {
        assert pool[left[i]].id != pool[left[j]].id;
      } else if left[j] < left[i] {
        assert pool[left[j]].id != pool[left[i]].id;
      }
    }
  }

  lemma PickedExcept(pool: seq<Entry>, left: seq<nat>, k: nat)
    requires DistinctEntries(pool) && Within(left, |pool|) && Distinct(left) && k < |left|
    ensures Within(Except(left, k), |pool|) && Distinct(Except(left, k))
    ensures Dropped(Picked(pool, left), Picked(pool, left)[k].id) == Picked(pool, Except(left, k))
  {
    var s, fewer := Picked(pool, left), Except(left, k);
    PickedDistinct(pool, left);
    DroppedAt(s, k);
    assert forall i :: 0 <= i < |fewer| ==> fewer[i] == left[if i < k then i else i + 1];
    assert s[..k] + s[k + 1..] == Picked(pool, fewer);
  }

  lemma {:induction false} RotateTried(pool: seq<Entry>, left: seq<nat>, base: nat, drops: seq<bool>)
    requires DistinctEntries(pool) && Within(left, |pool|) && Distinct(left)
    ensures Within(Tried(left, base, drops), |pool|)
    ensures Rotate(Picked(pool, left), base, drops) == Picked(pool, Tried(left, base, drops))
    decreases |drops|
  {
    if drops != [] && left != [] {
      var k := Wrap(base, |left|);
      var fewer := if drops[0] then Except(left, k) else left;
      if drops[0] { PickedExcept(pool, left, k); }
      RotateTried(pool, fewer, base + 1, drops[1..]);
      PickedCons(pool, left[k], Tried(fewer, base + 1, drops[1..]));
    }
  }

  lemma PickedCons(pool: seq<Entry>, x: nat, rest: seq<nat>)
    requires x < |pool| && Within(rest, |pool|)
    ensures Within([x] + rest, |pool|) && Picked(pool, [x] + rest) == [pool[x]] + Picked(pool, rest)
  {
  }

  /** For one request at its own cursor: it uses no proxy twice exactly when the rotation over positions, which
      knows the length of the pool, the cursor and the pattern of drops, hits none twice. */
  lemma FreshAtCursorExactly(w: World, streaming: bool, reply: nat -> Reply, ts: int)
    requires Agrees(w) && w.pool != []
    ensures DistinctEntries(Completion(w, true, streaming, reply, ts).tries) <==>
      Distinct(Tried(Indices(|w.pool|), w.cursor, Pattern(streaming, reply, 1, Attempts(w.pool))))
  {
    var drops, all := Pattern(streaming, reply, 1, Attempts(w.pool)), Indices(|w.pool|);
    LoopRotates(w, streaming, reply, ts, 1, Attempts(w.pool));
    assert Picked(w.pool, all) == w.pool;
    RotateTried(w.pool, all, w.cursor, drops);
    PickedDistinct(w.pool, Tried(all, w.cursor, drops));
  }

  // ----- round robin across requests ----------------------------------------------------------------------------

  /** A request that is rate-limited k-1 times and then served. */
  datatype Call = Call(streaming: bool, reply: nat -> Reply, ts: int, k: nat)

  ghost predicate ServedAtLast(c: Call, n: nat) {
    && 1 <= c.k <= n && c.k <= MAX_PROXY_ATTEMPTS
    && (forall a :: 1 <= a < c.k ==> c.reply(a) == Reply.RateLimited)
    && c.reply(c.k) == Served
  }

  lemma {:induction false} ServedLoop(w: World, c: Call, attempt: nat, total: nat, base: nat, n: nat)
    requires PositiveIds(w.pool) && ServedAtLast(c, |w.pool|) && 1 <= attempt <= c.k < total
    requires base == w.cursor + (attempt - 1) && n == c.k - (attempt - 1)
    ensures ServedAs(AttemptLoop(w, c.streaming, c.reply, c.ts, attempt, total), w, c.k, Window(w.pool, base, n))
    decreases total - attempt
  {
    WindowHead(w.pool, base, n);
    if attempt < c.k {
      ServedLoop(w, c, attempt + 1, total, base + 1, n - 1);
      ServedBehind(AttemptLoop(w, c.streaming, c.reply, c.ts, attempt + 1, total), w, c.k,
        Window(w.pool, base + 1, n - 1), At(w.pool, base));
    } else {
      assert Window(w.pool, base + 1, n - 1) == [];
    }
  }

  /** Served through these proxies, with the pool unchanged and the cursor `k` further. */
  ghost predicate ServedAs(r: LoopResult, w: World, k: nat, tries: seq<Entry>) {
    r.served && r.world.pool == w.pool && r.world.cursor == w.cursor + k && r.tries == tries
  }

  lemma ServedBehind(r: LoopResult, w: World, k: nat, tries: seq<Entry>, p: Entry)
    requires ServedAs(r, w, k, tries)
    ensures ServedAs(r.Behind([p]), w, k, [p] + tries)
  {
  }

  lemma WindowHead(pool: seq<Entry>, base: nat, n: nat)
    requires pool != [] && n > 0
    ensures Window(pool, base, n) == [At(pool, base)] + Window(pool, base + 1, n - 1)
  {
  }

  datatype SessionResult = SessionResult(world: World, tries: seq<Entry>)

  function Session(w: World, calls: seq<Call>): SessionResult {
    if calls == [] then SessionResult(w, [])
    else
      var before, c := Session(w, calls[..|calls| - 1]), calls[|calls| - 1];
      var r := Completion(before.world, true, c.streaming, c.reply, c.ts);
      SessionResult(r.world, before.tries + r.tries)
  }

  /** Each such request goes through pairwise different proxies, ... */
  lemma ServedRequestDistinct(w: World, c: Call)
    requires Agrees(w) && w.pool != [] && ServedAtLast(c, |w.pool|)
    ensures DistinctEntries(Completion(w, true, c.streaming, c.reply, c.ts).tries)
  {
    assert Completion(w, true, c.streaming, c.reply, c.ts).tries == Window(w.pool, w.cursor, c.k) by {
      ServedCompletion(w, c);
    }
    WindowDistinct(w.pool, w.cursor, c.k);
  }

  /** ... and a session of them goes through the pool in plain round-robin order. */
  lemma {:induction false} SessionIsRoundRobin(w: World, calls: seq<Call>)
    requires Agrees(w) && w.pool != [] && forall i :: 0 <= i < |calls| ==> ServedAtLast(calls[i], |w.pool|)
    ensures var s := Session(w, calls);
      && Agrees(s.world) && s.world.pool == w.pool
      && s.world.cursor == w.cursor + |s.tries|
      && s.tries == Window(w.pool, w.cursor, |s.tries|)
  {
    if calls != [] {
      var front, c := calls[..|calls| - 1], calls[|calls| - 1];
      SessionIsRoundRobin(w, front);
      var before := Session(w, front);
      ServedCompletion(before.world, c);
      WindowJoin(w.pool, w.cursor, |before.tries|, c.k);
    }
  }

  lemma ServedCompletion(w: World, c: Call)
    requires Agrees(w) && w.pool != [] && ServedAtLast(c, |w.pool|)
    ensures var r := Completion(w, true, c.streaming, c.reply, c.ts);
      && Agrees(r.world) && r.world.pool == w.pool && r.world.cursor == w.cursor + c.k
      && r.tries == Window(w.pool, w.cursor, c.k)
  {
    AttemptLoopAgrees(w, c.streaming, c.reply, c.ts, 1, Attempts(w.pool));
    ServedLoop(w, c, 1, Attempts(w.pool), w.cursor, c.k);
  }

  lemma WindowJoin(pool: seq<Entry>, base: nat, n: nat, m: nat)
    requires pool != []
    ensures Window(pool, base, n) + Window(pool, base + n, m) == Window(pool, base, n + m)
  {
  }

  lemma PositionOf(base: nat, n: nat, k: nat) returns (i: nat)
    requires k < n
    ensures i < n && Wrap(base + i, n) == k
  {
    var r := Wrap(base, n);
    i := if r <= k then k - r else k + n - r;
    if i > 0 { WrapShift(base, i, n); }
  }

  lemma {:induction false} CountOnce(s: seq<Entry>, i: nat)
    requires DistinctEntries(s) && i < |s|
    ensures multiset(s)[s[i]] == 1
  {
    assert s == s[..i] + [s[i]] + s[i + 1..];
    assert s[i] !in s[..i] && s[i] !in s[i + 1..];
  }

  /** How many whole turns fit. */
  function Turns(total: nat, n: nat): nat
    requires n > 0
  {
    if total < n then 0 else 1 + Turns(total - n, n)
  }

  lemma OnceAtMost(s: seq<Entry>, p: Entry)
    requires DistinctEntries(s)
    ensures multiset(s)[p] <= 1
  {
    if p in s {
      var i :| 0 <= i < |s| && s[i] == p;
      CountOnce(s, i);
    }
  }

  lemma FullTurnOnce(pool: seq<Entry>, base: nat, k: nat)
    requires DistinctEntries(pool) && k < |pool|
    ensures multiset(Window(pool, base, |pool|))[pool[k]] == 1
  {
    WindowDistinct(pool, base, |pool|);
    var i := PositionOf(base, |pool|, k);
    assert Window(pool, base, |pool|)[i] == At(pool, base + i) == pool[k];
    CountOnce(Window(pool, base, |pool|), i);
  }

  /** In any stretch of round-robin picks every proxy appears once per whole turn, or once more. */
  lemma {:induction false} ShareOfWindow(pool: seq<Entry>, base: nat, total: nat, k: nat)
    requires DistinctEntries(pool) && k < |pool|
    ensures var used := multiset(Window(pool, base, total))[pool[k]];
      Turns(total, |pool|) <= used <= Turns(total, |pool|) + 1
    decreases total
  {
    var n := |pool|;
    if total == 0 {
      assert Window(pool, base, 0) == [];
    } else if total < n {
      WindowDistinct(pool, base, total);
      OnceAtMost(Window(pool, base, total), pool[k]);
    } else {
      WindowJoin(pool, base, n, total - n);
      FullTurnOnce(pool, base, k);
      ShareOfWindow(pool, base + n, total - n, k);
    }
  }

  /** Over a whole session no proxy is used more than once more often than another. */
  lemma SessionIsFair(w: World, calls: seq<Call>, p: Entry, q: Entry)
    requires Agrees(w) && w.pool != [] && forall i :: 0 <= i < |calls| ==> ServedAtLast(calls[i], |w.pool|)
    requires p in w.pool && q in w.pool
    ensures var used := multiset(Session(w, calls).tries);
      used[p] <= used[q] + 1
  {
    var tries := Session(w, calls).tries;
    SessionIsRoundRobin(w, calls);
    var i :| 0 <= i < |w.pool| && w.pool[i] == p;
    var j :| 0 <= j < |w.pool| && w.pool[j] == q;
    ShareOfWindow(w.pool, w.cursor, |tries|, i);
    ShareOfWindow(w.pool, w.cursor, |tries|, j);
  }

  /** The cursor moves only when a request is served, and then past everything the request tried; a request
      that fails leaves the next one to start from the same place. */
  lemma {:induction false} CursorExactly(
    w: World, streaming: bool, reply: nat -> Reply, ts: int, attempt: nat, total: nat)
    requires attempt >= 1 && PositiveIds(w.pool)
    ensures var r := AttemptLoop(w, streaming, reply, ts, attempt, total);
      r.world.cursor == w.cursor + if r.served then attempt - 1 + |r.tries| else 0
    decreases total - attempt
  {
    if attempt < total && w.pool != [] {
      var p, w', goesOn := FirstMove(w, streaming, reply, ts, attempt, total);
      if goesOn { CursorExactly(w', streaming, reply, ts, attempt + 1, total); }
    }
  }

  /** The first of the remaining attempts, as far as the cursor is concerned. */
  lemma FirstMove(w: World, streaming: bool, reply: nat -> Reply, ts: int, attempt: nat, total: nat)
    returns (p: Entry, w': World, goesOn: bool)
    requires 1 <= attempt < total && w.pool != [] && PositiveIds(w.pool)
    ensures var r := AttemptLoop(w, streaming, reply, ts, attempt, total);
      if goesOn then
        && w'.cursor == w.cursor && PositiveIds(w'.pool)
        && r == AttemptLoop(w', streaming, reply, ts, attempt + 1, total).Behind([p])
      else |r.tries| == 1 && r.world.cursor == w.cursor + if r.served then attempt else 0
  {
    var verdict;
    p, verdict, w' := FirstAttempt(w, streaming, reply, ts, attempt, total);
    goesOn := verdict == Continue || verdict == Drop;
    if goesOn { AfterKeptOrDropped(w, p, verdict, streaming, ts, attempt); }
  }

  lemma {:induction false} RotateShort(pool: seq<Entry>, base: nat, drops: seq<bool>)
    ensures |Rotate(pool, base, drops)| <= |drops|
    ensures pool != [] && drops != [] ==> |Rotate(pool, base, drops)| > 0
    decreases |drops|
  {
    if drops != [] && pool != [] {
      RotateShort(if drops[0] then Dropped(pool, At(pool, base).id) else pool, base + 1, drops[1..]);
    }
  }

  /** A request that drops no proxy leaves the next one to start from the very proxy it started from exactly
      when it was not served, or was served only after it had gone through the whole pool. */
  lemma SameProxyAgain(w: World, streaming: bool, reply: nat -> Reply, ts: int)
    requires Agrees(w) && w.pool != [] && Completion(w, true, streaming, reply, ts).world.pool == w.pool
    ensures var r := Completion(w, true, streaming, reply, ts);
      Pick(w.pool, r.world.cursor, 0) == Pick(w.pool, w.cursor, 0) <==> !r.served || |r.tries| == |w.pool|
  {
    var served, tried, cursor := CursorMoves(w, streaming, reply, ts);
    if served { SamePosition(w.pool, w.cursor, tried); }
  }

  lemma CursorMoves(w: World, streaming: bool, reply: nat -> Reply, ts: int)
    returns (served: bool, tried: nat, cursor: nat)
    requires Agrees(w) && w.pool != []
    ensures var r := Completion(w, true, streaming, reply, ts);
      served == r.served && tried == |r.tries| && cursor == r.world.cursor
    ensures 0 < tried <= |w.pool| && cursor == w.cursor + if served then tried else 0
  {
    var r, total := Completion(w, true, streaming, reply, ts), Attempts(w.pool);
    served, tried, cursor := r.served, |r.tries|, r.world.cursor;
    CursorExactly(w, streaming, reply, ts, 1, total);
    LoopRotates(w, streaming, reply, ts, 1, total);
    PatternLength(streaming, reply, 1, total);
    assert Pattern(streaming, reply, 1, total) != [] by { PatternStep(streaming, reply, 1, total); }
    RotateShort(w.pool, w.cursor, Pattern(streaming, reply, 1, total));
  }

  lemma SamePosition(pool: seq<Entry>, cursor: nat, moved: nat)
    requires DistinctEntries(pool) && 0 < moved <= |pool|
    ensures At(pool, cursor + moved) == At(pool, cursor) <==> moved == |pool|
  {
    if moved < |pool| { DifferentPositions(cursor, 0, moved, |pool|); }
  }
}
