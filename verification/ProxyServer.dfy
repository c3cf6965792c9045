/** The in-memory proxy pool, the admin handlers that change table and pool together, and the attempt
    loops that rotate through the pool.  A handler is one atomic step; what the provider replies to
    each attempt is an input. */
module ProxyServer {
  import opened Types
  import opened ProxyStore

  const MAX_PROXY_ATTEMPTS := 12

  datatype Entry = Entry(id: nat, url: string)

  class ProxyPool {
    var proxies: seq<Entry>
    var cursor: nat

    constructor ()
      ensures proxies == [] && cursor == 0
    {
      proxies, cursor := [], 0;
    }

    method Load(db: Database)
      modifies this`proxies
      ensures proxies == Entries(db.View(), Listing(db.View()))
    {
      var listed := db.ActiveProxies();
      proxies := Entries(db.View(), listed);
    }

    /** Round-robin pick. */
    method Next() returns (r: Option<Entry>)
      modifies this`cursor
      ensures r == Pick(proxies, old(cursor), 0)
      ensures cursor == old(cursor) + if proxies == [] then 0 else 1
    {
      if proxies == [] {
        return None;
      }
      WrapIsRemainder(cursor, |proxies|);
      r := Some(proxies[cursor % |proxies|]);
      cursor := cursor + 1;
    }

    method Nth(attempt: nat) returns (r: Option<Entry>)
      ensures r == Pick(proxies, cursor, attempt)
    {
      if proxies == [] {
        return None;
      }
      WrapIsRemainder(cursor + attempt, |proxies|);
      r := Some(proxies[(cursor + attempt) % |proxies|]);
    }

    method Advance(n: nat)
      modifies this`cursor
      ensures cursor == old(cursor) + n
    {
      cursor := cursor + n;
    }

    method MarkSuccess(id: nat, db: Database, ts: int)
      modifies db
      ensures db.View() == Changed(old(db.View()), Mark(id, true, None, ts))
    {
      db.MarkResult(id, true, None, ts);
    }

    method MarkFailure(id: nat, db: Database, ts: int)
      modifies this`proxies, db
      ensures db.View() == Changed(old(db.View()), Mark(id, false, None, ts))
      ensures proxies == Dropped(old(proxies), id)
    {
      db.MarkResult(id, false, None, ts);
      proxies := Dropped(proxies, id);
    }
  }

  function Entries(t: Table, ids: seq<nat>): seq<Entry> {
    seq(|ids|, i requires 0 <= i < |ids| => Entry(ids[i], RowOf(t, ids[i]).url))
  }

  /** The remainder, by repeated subtraction. */
  function Wrap(x: nat, n: nat): (r: nat)
    requires n > 0
    ensures r < n
  {
    if x < n then x else Wrap(x - n, n)
  }

  lemma {:induction false} WrapIsRemainder(x: nat, n: nat)
    requires n > 0
    ensures Wrap(x, n) == x % n
  {
    if x >= n {
      WrapIsRemainder(x - n, n);
      assert (x - n) % n == x % n by {
        var q, r := (x - n) / n, (x - n) % n;
        assert x == (q + 1) * n + r by { assert (q + 1) * n == q * n + n; }
        Remainder(x, q + 1, n, r);
      }
    }
  }

  lemma Remainder(x: nat, q: nat, d: nat, r: nat)
    requires r < d && x == q * d + r
    ensures x % d == r
  {
    var k := x / d - q;
    assert x == d * (x / d) + x % d;
    assert d * k == r - x % d;
    MultipleGrows(d, k);
  }

  lemma MultipleGrows(d: nat, k: int)
    ensures k >= 1 ==> d * k >= d
    ensures k <= -1 ==> d * k <= 0 - d
  {
    if k >= 1 {
      assert d * (k - 1) >= 0;
    } else if k <= -1 {
      assert d * (-1 - k) >= 0;
    }
  }

  /** The entry at a cursor position, which wraps around. */
  function At(pool: seq<Entry>, position: nat): Entry
    requires pool != []
  {
    pool[Wrap(position, |pool|)]
  }

  function Pick(pool: seq<Entry>, cursor: nat, attempt: nat): Option<Entry> {
    if pool == [] then None else Some(At(pool, cursor + attempt))
  }

  /** `retain(|p| p.id != id)` */
  function Dropped(pool: seq<Entry>, id: nat): seq<Entry> {
    if pool == [] then []
    else
      var rest, last := Dropped(pool[..|pool| - 1], id), pool[|pool| - 1];
      if last.id == id then rest else rest + [last]
  }

  // ----- handlers -----------------------------------------------------------------------------------------

  /** What the provider answers to one attempt. */
  datatype Reply = Served | RateLimited | AuthRefused | UnknownModel | Broken | OtherError

  datatype World = World(table: Table, pool: seq<Entry>, cursor: nat)

  datatype Request =
    | AddProxy(url: string, protocol: string, ts: int)
    | DeleteProxy(id: nat)
    | SetStatus(id: nat, active: bool)
    | Refresh(found: seq<Change>)
    | Complete(bypass: bool, streaming: bool, reply: nat -> Reply, ts: int)

  function Reloaded(w: World): World {
    w.(pool := Entries(w.table, Listing(w.table)))
  }

  function AfterUpserts(t: Table, found: seq<Change>): Table {
    if found == [] then t
    else
      var before, last := AfterUpserts(t, found[..|found| - 1]), found[|found| - 1];
      if last.Upsert? then Changed(before, last) else before
  }

  /** How an attempt through a proxy ends: served, abandoned, or on to the next one, possibly without
      this proxy.  The two attempt loops classify errors differently. */
  datatype Verdict = Done | Stop | Continue | Drop

  function Classify(streaming: bool, reply: Reply, attempt: nat): Verdict {
    match reply
    case Served => Done
    case RateLimited => Continue
    case AuthRefused => Stop
    case Broken => Drop
    case UnknownModel => if streaming then Drop else Stop
    case OtherError => if streaming then Drop else if attempt >= 2 then Stop else Continue
  }

  datatype LoopResult = LoopResult(world: World, tries: seq<Entry>, served: bool) {
    /** The same result with earlier tries in front. */
    function Behind(earlier: seq<Entry>): LoopResult {
      LoopResult(world, earlier + tries, served)
    }
  }

  /** What one attempt through proxy `id` (0 when direct) leaves behind. */
  function AfterAttempt(w: World, id: nat, verdict: Verdict, streaming: bool, ts: int, attempt: nat): World {
    if verdict == Done && id > 0 then
      World(Changed(w.table, Mark(id, true, None, ts)), w.pool, w.cursor + attempt)
    else if verdict == Drop && (if streaming then id > 0 else attempt > 0) then
      World(Changed(w.table, Mark(id, false, None, ts)), Dropped(w.pool, id), w.cursor)
    else
      w
  }

  /** The rest of an attempt loop from attempt number `attempt`, with every proxy it goes through. */
  function AttemptLoop(w: World, streaming: bool, reply: nat -> Reply, ts: int, attempt: nat, total: nat): LoopResult
    requires attempt >= 1
    decreases total - attempt
  {
    if attempt >= total || w.pool == [] then LoopResult(w, [], false)
    else
      var p := At(w.pool, w.cursor + (attempt - 1));
      var verdict := Classify(streaming, reply(attempt), attempt);
      var w' := AfterAttempt(w, p.id, verdict, streaming, ts, attempt);
      if verdict == Done || verdict == Stop then LoopResult(w', [p], verdict == Done)
      else AttemptLoop(w', streaming, reply, ts, attempt + 1, total).Behind([p])
  }

  function Attempts(pool: seq<Entry>): nat {
    1 + if |pool| < MAX_PROXY_ATTEMPTS then |pool| else MAX_PROXY_ATTEMPTS
  }

  /** With bypass and a non-empty pool every attempt goes through a proxy; otherwise there is one direct
      attempt, which touches neither table nor pool. */
  function Completion(w: World, bypass: bool, streaming: bool, reply: nat -> Reply, ts: int): LoopResult {
    if bypass && w.pool != [] then AttemptLoop(w, streaming, reply, ts, 1, Attempts(w.pool))
    else LoopResult(w, [], reply(0) == Served)
  }

  function Handled(w: World, r: Request): World {
    match r
    case AddProxy(url, protocol, ts) =>
      if url == "" then w else w.(table := Changed(w.table, Upsert(url, protocol, None, None, ts)))
    case DeleteProxy(id) =>
      if id in w.table.rows then Reloaded(w.(table := Changed(w.table, Delete(id)))) else w
    case SetStatus(id, active) =>
      if id in w.table.rows then
        Reloaded(w.(table := Changed(w.table, if active then Activate(id) else Deactivate(id))))
      else w
    case Refresh(found) => Reloaded(w.(table := AfterUpserts(w.table, found)))
    case Complete(bypass, streaming, reply, ts) => Completion(w, bypass, streaming, reply, ts).world
  }

  class Server {
    const db: Database
    const pool: ProxyPool

    constructor (db: Database)
      ensures this.db == db && fresh(pool)
      ensures pool.proxies == [] && pool.cursor == 0
    {
      this.db := db;
      pool := new ProxyPool();
    }

    function View(): World
      reads db, pool
    {
      World(db.View(), pool.proxies, pool.cursor)
    }

    method AdminAdd(url: string, protocol: string, ts: int)
      modifies db
      ensures View() == Handled(old(View()), AddProxy(url, protocol, ts))
    {
      if url != "" {
        db.UpsertProxy(url, protocol, None, None, ts);
      }
    }

    method AdminDelete(id: nat)
      modifies db, pool
      ensures View() == Handled(old(View()), DeleteProxy(id))
    {
      var found := db.DeleteProxy(id);
      if found {
        pool.Load(db);
      }
    }

    method AdminSetStatus(id: nat, active: bool)
      modifies db, pool
      ensures View() == Handled(old(View()), SetStatus(id, active))
    {
      var found;
      if active {
        found := db.ActivateProxy(id);
      } else {
        found := db.DeactivateProxy(id);
      }
      if found {
        pool.Load(db);
      }
    }

    method AdminRefresh(found: seq<Change>)
      modifies db, pool
      ensures View() == Handled(old(View()), Refresh(found))
    {
      for i := 0 to |found|
        invariant db.View() == AfterUpserts(old(db.View()), found[..i])
        invariant pool.proxies == old(pool.proxies) && pool.cursor == old(pool.cursor)
      {
        assert found[..i + 1][..i] == found[..i];
        match found[i]
        case Upsert(url, protocol, country, anonymity, ts) => db.UpsertProxy(url, protocol, country, anonymity, ts);
        case _ =>
      }
      assert found[..|found|] == found;
      pool.Load(db);
    }

    /** Act on the provider's answer in the non-streaming loop. */
    method Settle(used: nat, answer: Reply, attempt: nat, ts: int) returns (verdict: Verdict)
      modifies db, pool
      ensures verdict == Classify(false, answer, attempt)
      ensures View() == AfterAttempt(old(View()), used, verdict, false, ts, attempt)
    {
      match answer
      case Served =>
        if used > 0 {
          pool.MarkSuccess(used, db, ts);
          pool.Advance(attempt);
        }
        verdict := Done;
      case RateLimited => verdict := Continue;
      case Broken =>
        if attempt > 0 {
          pool.MarkFailure(used, db, ts);
        }
        verdict := Drop;
      case AuthRefused => verdict := Stop;
      case UnknownModel => verdict := Stop;
      case OtherError => verdict := if attempt >= 2 then Stop else Continue;
    }

    /** Act on it in the streaming loop, where every error but a rate limit or an authentication
        failure drops the proxy. */
    method SettleStream(used: nat, answer: Reply, attempt: nat, ts: int) returns (verdict: Verdict)
      modifies db, pool
      ensures verdict == Classify(true, answer, attempt)
      ensures View() == AfterAttempt(old(View()), used, verdict, true, ts, attempt)
    {
      match answer
      case Served =>
        if used > 0 {
          pool.MarkSuccess(used, db, ts);
          pool.Advance(attempt);
        }
        verdict := Done;
      case RateLimited => verdict := Continue;
      case AuthRefused => verdict := Stop;
      case _ =>
        if used > 0 {
          pool.MarkFailure(used, db, ts);
        }
        verdict := Drop;
    }

    /** The non-streaming attempt loop through the pool. */
    method ProxyCompletionLoop(reply: nat -> Reply, ts: int) returns (tries: seq<Entry>, served: bool)
      modifies db, pool
      ensures LoopResult(View(), tries, served)
        == AttemptLoop(old(View()), false, reply, ts, 1, Attempts(old(pool.proxies)))
    {
      tries := [];
      var total := Attempts(pool.proxies);
      ghost var w := View();
      ghost var goal := AttemptLoop(w, false, reply, ts, 1, total);
      for attempt := 1 to total
        invariant w == View() && goal == AttemptLoop(w, false, reply, ts, attempt, total).Behind(tries)
      {
        var picked := pool.Nth(attempt - 1);
        if picked.None? {
          LoopOver(w, false, reply, ts, attempt, total, tries);
          return tries, false;
        }
        w := NextAttempt(w, false, reply, ts, attempt, total, picked.value, tries);
        var verdict := Settle(picked.value.id, reply(attempt), attempt, ts);
        tries := tries + [picked.value];
        if verdict == Done || verdict == Stop {
          served := verdict == Done;
          return;
        }
      }
      LoopOver(w, false, reply, ts, total, total, tries);
      served := false;
    }

    /** A non-streaming completion: through the pool with bypass, else one direct attempt. */
    method ProxyCompletion(bypass: bool, reply: nat -> Reply, ts: int) returns (tries: seq<Entry>, served: bool)
      modifies db, pool
      ensures LoopResult(View(), tries, served) == Completion(old(View()), bypass, false, reply, ts)
    {
      if bypass && pool.proxies != [] {
        tries, served := ProxyCompletionLoop(reply, ts);
      } else {
        var verdict := Settle(0, reply(0), 0, ts);
        tries, served := [], verdict == Done;
      }
    }

    /** The streaming attempt loop through the pool. */
    method StreamCompletionLoop(reply: nat -> Reply, ts: int) returns (tries: seq<Entry>, served: bool)
      modifies db, pool
      ensures LoopResult(View(), tries, served)
        == AttemptLoop(old(View()), true, reply, ts, 1, Attempts(old(pool.proxies)))
    {
      tries := [];
      var total := Attempts(pool.proxies);
      ghost var w := View();
      ghost var goal := AttemptLoop(w, true, reply, ts, 1, total);
      for attempt := 1 to total
        invariant w == View() && goal == AttemptLoop(w, true, reply, ts, attempt, total).Behind(tries)
      {
        var picked := pool.Nth(attempt - 1);
        if picked.None? {
          LoopOver(w, true, reply, ts, attempt, total, tries);
          return tries, false;
        }
        w := NextAttempt(w, true, reply, ts, attempt, total, picked.value, tries);
        var verdict := SettleStream(picked.value.id, reply(attempt), attempt, ts);
        tries := tries + [picked.value];
        if verdict == Done || verdict == Stop {
          served := verdict == Done;
          return;
        }
      }
      LoopOver(w, true, reply, ts, total, total, tries);
      served := false;
    }

    /** A streaming completion: through the pool with bypass, else one direct attempt. */
    method StreamCompletion(bypass: bool, reply: nat -> Reply, ts: int) returns (tries: seq<Entry>, served: bool)
      modifies db, pool
      ensures LoopResult(View(), tries, served) == Completion(old(View()), bypass, true, reply, ts)
    {
      if bypass && pool.proxies != [] {
        tries, served := StreamCompletionLoop(reply, ts);
      } else {
        var verdict := SettleStream(0, reply(0), 0, ts);
        tries, served := [], verdict == Done;
      }
    }
  }

  // ----- the pool agrees with the table -------------------------------------------------------------------

  ghost predicate DistinctEntries(pool: seq<Entry>) {
    forall i, j :: 0 <= i < j < |pool| ==> pool[i].id != pool[j].id
  }

  /** Every entry of the pool is an active row of the table, under its own url, and appears once. */
  ghost predicate Agrees(w: World) {
    && Healthy(w.table)
    && DistinctEntries(w.pool)
    && (forall p :: p in w.pool ==>
          p.id in w.table.rows && w.table.rows[p.id].active && w.table.rows[p.id].url == p.url)
  }

  lemma ReloadAgrees(w: World)
    requires Healthy(w.table)
    ensures Agrees(Reloaded(w))
  {
    var listed := Listing(w.table);
    ListingIs(w.table);
    var pool := Entries(w.table, listed);
    forall p | p in pool ensures p.id in w.table.rows && w.table.rows[p.id].active && w.table.rows[p.id].url == p.url {
      var i :| 0 <= i < |pool| && pool[i] == p;
      assert listed[i] in listed;
    }
  }

  lemma {:induction false} DroppedAre(pool: seq<Entry>, id: nat)
    ensures forall p :: p in Dropped(pool, id) <==> p in pool && p.id != id
    ensures DistinctEntries(pool) ==> DistinctEntries(Dropped(pool, id))
  {
    if pool != [] {
      var front, last := pool[..|pool| - 1], pool[|pool| - 1];
      DroppedAre(front, id);
      assert pool == front + [last];
      var rest := Dropped(front, id);
      if DistinctEntries(pool) {
        forall i | 0 <= i < |rest| ensures rest[i].id != last.id {
          assert rest[i] in rest && rest[i] in front;
        }
      }
    }
  }

  lemma UpsertAgrees(w: World, c: Change)
    requires Agrees(w) && c.Upsert?
    ensures Agrees(w.(table := Changed(w.table, c)))
  {
    ChangeKeepsHealthy(w.table, c);
  }

  /** A served proxy is marked active; a failing one leaves the pool at once, so the pool agrees even if
      the table now disables it. */
  lemma AttemptAgrees(w: World, p: Entry, verdict: Verdict, streaming: bool, ts: int, attempt: nat)
    requires Agrees(w) && p in w.pool && attempt >= 1
    ensures Agrees(AfterAttempt(w, p.id, verdict, streaming, ts, attempt))
  {
    ChangeKeepsHealthy(w.table, Mark(p.id, true, None, ts));
    ChangeKeepsHealthy(w.table, Mark(p.id, false, None, ts));
    DroppedAre(w.pool, p.id);
  }

  lemma AttemptLoopAgrees(w: World, streaming: bool, reply: nat -> Reply, ts: int, attempt: nat, total: nat)
    requires attempt >= 1 && Agrees(w)
    ensures Agrees(AttemptLoop(w, streaming, reply, ts, attempt, total).world)
  {
    var kept := (v: World) => Agrees(v);
    forall v: World, p, verdict, n: nat | kept(v) && p in v.pool && n >= 1
      ensures kept(AfterAttempt(v, p.id, verdict, streaming, ts, n))
    {
      AttemptAgrees(v, p, verdict, streaming, ts, n);
    }
    AttemptLoopKeeps(kept, w, streaming, reply, ts, attempt, total);
  }

  /** What `kept` says survives any single attempt. */
  ghost predicate AttemptKeeps(kept: World -> bool, streaming: bool, ts: int) {
    forall v: World, p, verdict, n: nat {:trigger p in v.pool, AfterAttempt(v, p.id, verdict, streaming, ts, n)} ::
      kept(v) && p in v.pool && n >= 1 ==> kept(AfterAttempt(v, p.id, verdict, streaming, ts, n))
  }

  /** Whatever each single attempt keeps, the whole loop keeps. */
  lemma {:induction false} AttemptLoopKeeps(
    kept: World -> bool, w: World, streaming: bool, reply: nat -> Reply, ts: int, attempt: nat, total: nat)
    requires attempt >= 1 && kept(w) && AttemptKeeps(kept, streaming, ts)
    ensures kept(AttemptLoop(w, streaming, reply, ts, attempt, total).world)
    decreases total - attempt
  {
    if attempt < total && w.pool != [] {
      var w', goesOn := FirstKept(kept, w, streaming, reply, ts, attempt, total);
      if goesOn { AttemptLoopKeeps(kept, w', streaming, reply, ts, attempt + 1, total); }
    }
  }

  lemma FirstKept(
    kept: World -> bool, w: World, streaming: bool, reply: nat -> Reply, ts: int, attempt: nat, total: nat)
    returns (w': World, goesOn: bool)
    requires 1 <= attempt < total && w.pool != [] && kept(w) && AttemptKeeps(kept, streaming, ts)
    ensures kept(w')
    ensures AttemptLoop(w, streaming, reply, ts, attempt, total).world
      == if goesOn then AttemptLoop(w', streaming, reply, ts, attempt + 1, total).world else w'
  {
    var p, verdict, next := FirstAttempt(w, streaming, reply, ts, attempt, total);
    w', goesOn := next, verdict == Continue || verdict == Drop;
  }

  /** The first of the remaining attempts, and how the loop goes on from there. */
  lemma FirstAttempt(w: World, streaming: bool, reply: nat -> Reply, ts: int, attempt: nat, total: nat)
    returns (p: Entry, verdict: Verdict, w': World)
    requires 1 <= attempt < total && w.pool != []
    ensures Pick(w.pool, w.cursor, attempt - 1) == Some(p) && p in w.pool
    ensures verdict == Classify(streaming, reply(attempt), attempt)
    ensures w' == AfterAttempt(w, p.id, verdict, streaming, ts, attempt)
    ensures AttemptLoop(w, streaming, reply, ts, attempt, total) ==
      if verdict == Done || verdict == Stop then LoopResult(w', [p], verdict == Done)
      else AttemptLoop(w', streaming, reply, ts, attempt + 1, total).Behind([p])
  {
    p := At(w.pool, w.cursor + (attempt - 1));
    verdict := Classify(streaming, reply(attempt), attempt);
    w' := AfterAttempt(w, p.id, verdict, streaming, ts, attempt);
  }

  /** The loop's progress: this attempt joins the tries, and the rest of the loop follows. */
  lemma NextAttempt(
    w: World, streaming: bool, reply: nat -> Reply, ts: int, attempt: nat, total: nat, picked: Entry, tries: seq<Entry>)
    returns (w': World)
    requires 1 <= attempt < total && Pick(w.pool, w.cursor, attempt - 1) == Some(picked)
    ensures var verdict := Classify(streaming, reply(attempt), attempt);
      && w' == AfterAttempt(w, picked.id, verdict, streaming, ts, attempt)
      && AttemptLoop(w, streaming, reply, ts, attempt, total).Behind(tries) ==
         if verdict == Done || verdict == Stop then LoopResult(w', tries + [picked], verdict == Done)
         else AttemptLoop(w', streaming, reply, ts, attempt + 1, total).Behind(tries + [picked])
  {
    var p, verdict, next := FirstAttempt(w, streaming, reply, ts, attempt, total);
    w' := next;
    BehindBoth(AttemptLoop(w', streaming, reply, ts, attempt + 1, total), [picked], tries);
  }

  /** Nothing is left to do. */
  lemma LoopOver(
    w: World, streaming: bool, reply: nat -> Reply, ts: int, attempt: nat, total: nat, tries: seq<Entry>)
    requires attempt >= 1 && (attempt >= total || w.pool == [])
    ensures AttemptLoop(w, streaming, reply, ts, attempt, total).Behind(tries) == LoopResult(w, tries, false)
  {
    assert tries + [] == tries;
  }

  lemma BehindBoth(r: LoopResult, last: seq<Entry>, earlier: seq<Entry>)
    ensures r.Behind(last).Behind(earlier) == r.Behind(earlier + last)
  {
    assert earlier + (last + r.tries) == (earlier + last) + r.tries;
  }

  /** A proxy that is added is in the table at once, and in the pool from the next reload on, unless that
      is full. */
  lemma AddedLater(w: World, url: string, protocol: string, ts: int)
    requires Agrees(w) && url != ""
    ensures var w' := Handled(w, AddProxy(url, protocol, ts));
      && w'.pool == w.pool && w'.cursor == w.cursor
      && exists id :: id in w'.table.rows && w'.table.rows[id].url == url && w'.table.rows[id].active
           && (Entry(id, url) in Handled(w', Refresh([])).pool || |Handled(w', Refresh([])).pool| == 200)
  {
    var w' := Handled(w, AddProxy(url, protocol, ts));
    var t := w'.table;
    IdOfFinds(w.table, url, w.table.nextId);
    ChangeKeepsHealthy(w.table, Upsert(url, protocol, None, None, ts));
    var found := IdOf(w.table, url, w.table.nextId);
    var id := if found in w.table.rows then found else w.table.nextId;
    assert id in t.rows && t.rows[id].url == url && t.rows[id].active;
    assert Handled(w', Refresh([])) == Reloaded(w') by { assert AfterUpserts(t, []) == t; }
    ListingIs(t);
    if id in Listing(t) {
      var i :| 0 <= i < |Listing(t)| && Listing(t)[i] == id;
      assert Entries(t, Listing(t))[i] == Entry(id, url);
    }
  }

  /** Requests about a proxy that is not there, or without a url, change nothing. */
  lemma RefusedRequests(w: World, id: nat, active: bool, protocol: string, ts: int)
    ensures Handled(w, AddProxy("", protocol, ts)) == w
    ensures id !in w.table.rows ==> Handled(w, DeleteProxy(id)) == w && Handled(w, SetStatus(id, active)) == w
  {
  }

  // ----- when a request goes direct -----------------------------------------------------------------------

  /** A request goes to the provider directly exactly when it has no bypass or finds the pool empty; what
      becomes of it then is up to that one answer. */
  lemma DirectExactly(w: World, bypass: bool, streaming: bool, reply: nat -> Reply, ts: int)
    ensures var r := Completion(w, bypass, streaming, reply, ts);
      && (r.tries == [] <==> !bypass || w.pool == [])
      && (r.tries == [] ==> r == LoopResult(w, [], reply(0) == Served))
  {
    if bypass && w.pool != [] { var _, _, _ := FirstAttempt(w, streaming, reply, ts, 1, Attempts(w.pool)); }
  }

  /** Such a run, with bypass: one proxy, one broken connection, and the next request goes direct although
      the table still holds that proxy as active. */
  lemma BypassGoesDirect(url: string, streaming: bool, reply: nat -> Reply, ts: int)
    requires url != ""
    ensures var broken := Complete(true, streaming, a => Broken, ts);
      var w := ServedAll(World(EMPTY_TABLE, [], 0), [AddProxy(url, "http", ts), Refresh([]), broken]);
      && w.pool == [] && 1 in w.table.rows && w.table.rows[1].active
      && Completion(w, true, streaming, reply, ts).tries == []
  {
    var start, broken := World(EMPTY_TABLE, [], 0), Complete(true, streaming, a => Broken, ts);
    var add, refresh := AddProxy(url, "http", ts), Refresh([]);
    var two, three := [add, refresh], [add, refresh, broken];
    var w := OneProxy(url, ts);
    assert three[..2] == two && two[..1] == [add] && [add][..0] == [];
    assert ServedAll(start, [add]) == Handled(start, add);
    assert ServedAll(start, two) == w;
    OneBroken(w, streaming, ts);
  }

  /** A table with one proxy, loaded. */
  lemma OneProxy(url: string, ts: int) returns (w: World)
    requires url != ""
    ensures w == Handled(Handled(World(EMPTY_TABLE, [], 0), AddProxy(url, "http", ts)), Refresh([]))
    ensures w.pool == [Entry(1, url)] && w.cursor == 0
    ensures 1 in w.table.rows && w.table.rows[1].active && w.table.rows[1].failCount == 0
  {
    var t := FirstRow(url, "http", ts);
    var added := Handled(World(EMPTY_TABLE, [], 0), AddProxy(url, "http", ts));
    assert added == World(t, [], 0) && AfterUpserts(t, []) == t;
    w := Reloaded(added);
    assert Entries(t, [1]) == [Entry(1, url)];
  }

  lemma OneBroken(w: World, streaming: bool, ts: int)
    requires |w.pool| == 1 && w.pool[0].id > 0
    requires w.pool[0].id in w.table.rows && w.table.rows[w.pool[0].id].active
    requires w.table.rows[w.pool[0].id].failCount == 0
    ensures var w' := Handled(w, Complete(true, streaming, a => Broken, ts));
      w'.pool == [] && w.pool[0].id in w'.table.rows && w'.table.rows[w.pool[0].id].active
  {
    var id := w.pool[0].id;
    assert Dropped(w.pool, id) == [] by { assert w.pool[..0] == []; }
    var p, verdict, w' := FirstAttempt(w, streaming, a => Broken, ts, 1, Attempts(w.pool));
    assert p == w.pool[0] && verdict == Drop;
  }

  lemma {:induction false} UpsertsKeepHealthy(t: Table, found: seq<Change>)
    requires Healthy(t)
    ensures Healthy(AfterUpserts(t, found))
  {
    if found != [] {
      var front, last := found[..|found| - 1], found[|found| - 1];
      UpsertsKeepHealthy(t, front);
      if last.Upsert? { ChangeKeepsHealthy(AfterUpserts(t, front), last); }
    }
  }

  lemma HandledAgrees(w: World, r: Request)
    requires Agrees(w)
    ensures Agrees(Handled(w, r))
  {
    match r
    case AddProxy(url, protocol, ts) => if url != "" { UpsertAgrees(w, Upsert(url, protocol, None, None, ts)); }
    case DeleteProxy(id) =>
      ChangeKeepsHealthy(w.table, Delete(id));
      ReloadAgrees(w.(table := Changed(w.table, Delete(id))));
    case SetStatus(id, active) =>
      var c := if active then Activate(id) else Deactivate(id);
      ChangeKeepsHealthy(w.table, c);
      ReloadAgrees(w.(table := Changed(w.table, c)));
    case Refresh(found) =>
      UpsertsKeepHealthy(w.table, found);
      ReloadAgrees(w.(table := AfterUpserts(w.table, found)));
    case Complete(bypass, streaming, reply, ts) =>
      if bypass && w.pool != [] { AttemptLoopAgrees(w, streaming, reply, ts, 1, Attempts(w.pool)); }
  }

  function ServedAll(w: World, requests: seq<Request>): World {
    if requests == [] then w else Handled(ServedAll(w, requests[..|requests| - 1]), requests[|requests| - 1])
  }

  /** After any sequence of requests from a start with a healthy table and an empty pool, every proxy in
      memory is active in the table. */
  lemma {:induction false} AlwaysAgrees(table: Table, requests: seq<Request>)
    requires Healthy(table)
    ensures Agrees(ServedAll(World(table, [], 0), requests))
  {
    if requests != [] {
      AlwaysAgrees(table, requests[..|requests| - 1]);
      HandledAgrees(ServedAll(World(table, [], 0), requests[..|requests| - 1]), requests[|requests| - 1]);
    }
  }
}
