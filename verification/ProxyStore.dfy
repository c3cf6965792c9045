/** The proxy table: health bookkeeping row by row, and the listing the in-memory pool is loaded from. */
module ProxyStore {
  import opened Types
  import opened Sorting

  const MAX_FAILURES := 5
  const LISTING_LIMIT := 200

  datatype ProxyRow = ProxyRow(
    url: string,
    protocol: string,
    country: Option<string>,
    anonymity: Option<string>,
    active: bool,
    lastCheck: Option<int>,
    latencyMs: Option<int>,
    uptimePct: real,
    failCount: nat,
    addedAt: int
  )

  /** Ids start at 1 and are never reused. */
  datatype Table = Table(rows: map<nat, ProxyRow>, nextId: nat)

  const EMPTY_TABLE := Table(map[], 1)

  datatype Change =
    | Upsert(url: string, protocol: string, country: Option<string>, anonymity: Option<string>, ts: int)
    | Delete(id: nat)
    | Activate(id: nat)
    | Deactivate(id: nat)
    | Mark(id: nat, success: bool, latencyMs: Option<int>, ts: int)

  /** The row holding a url, or 0; urls are unique, and 0 is no id. */
  function IdOf(t: Table, url: string, upTo: nat): nat {
    if upTo == 0 then 0
    else if upTo in t.rows && t.rows[upTo].url == url then upTo
    else IdOf(t, url, upTo - 1)
  }

  function Min(x: real, y: real): real {
    if x <= y then x else y
  }

  function Max(x: real, y: real): real {
    if x <= y then y else x
  }

  function Marked(r: ProxyRow, success: bool, latencyMs: Option<int>, ts: int): ProxyRow {
    if success then
      r.(lastCheck := Some(ts),
         latencyMs := Some(if latencyMs.Some? then latencyMs.value else 0),
         uptimePct := Min(100.0, r.uptimePct * 0.9 + 10.0),
         failCount := 0,
         active := true)
    else
      r.(lastCheck := Some(ts),
         uptimePct := Max(0.0, r.uptimePct * 0.9),
         failCount := r.failCount + 1,
         active := if r.failCount >= 4 then false else r.active)
  }

  function Changed(t: Table, c: Change): Table {
    match c
    case Upsert(url, protocol, country, anonymity, ts) =>
      var id := IdOf(t, url, t.nextId);
      if id in t.rows then
        t.(rows := t.rows[id := t.rows[id].(protocol := protocol, country := country, anonymity := anonymity,
                                            active := true, failCount := 0)])
      else
        Table(
          t.rows[t.nextId := ProxyRow(url, protocol, country, anonymity, true, None, None, 100.0, 0, ts)],
          t.nextId + 1)
    case Delete(id) => t.(rows := t.rows - {id})
    case Activate(id) =>
      if id in t.rows then t.(rows := t.rows[id := t.rows[id].(active := true, failCount := 0)]) else t
    case Deactivate(id) =>
      if id in t.rows then t.(rows := t.rows[id := t.rows[id].(active := false, failCount := 5)]) else t
    case Mark(id, success, latencyMs, ts) =>
      if id in t.rows then t.(rows := t.rows[id := Marked(t.rows[id], success, latencyMs, ts)]) else t
  }

  class Database {
    var rows: map<nat, ProxyRow>
    var nextId: nat

    function View(): Table
      reads this
    {
      Table(rows, nextId)
    }

    constructor ()
      ensures View() == EMPTY_TABLE
    {
      rows, nextId := map[], 1;
    }

    method UpsertProxy(url: string, protocol: string, country: Option<string>, anonymity: Option<string>, ts: int)
      modifies this
      ensures View() == Changed(old(View()), Upsert(url, protocol, country, anonymity, ts))
    {
      var id := IdOf(View(), url, nextId);
      if id in rows {
        var r := rows[id].(protocol := protocol, country := country, anonymity := anonymity);
        rows := rows[id := r.(active := true, failCount := 0)];
      } else {
        rows := rows[nextId := ProxyRow(url, protocol, country, anonymity, true, None, None, 100.0, 0, ts)];
        nextId := nextId + 1;
      }
    }

    /** The boolean results say whether a row was there. */
    method DeleteProxy(id: nat) returns (found: bool)
      modifies this
      ensures View() == Changed(old(View()), Delete(id)) && found == (id in old(rows))
    {
      found := id in rows;
      rows := rows - {id};
    }

    method ActivateProxy(id: nat) returns (found: bool)
      modifies this
      ensures View() == Changed(old(View()), Activate(id)) && found == (id in old(rows))
    {
      found := id in rows;
      if found {
        rows := rows[id := rows[id].(active := true, failCount := 0)];
      }
    }

    method DeactivateProxy(id: nat) returns (found: bool)
      modifies this
      ensures View() == Changed(old(View()), Deactivate(id)) && found == (id in old(rows))
    {
      found := id in rows;
      if found {
        rows := rows[id := rows[id].(active := false, failCount := 5)];
      }
    }

    method MarkResult(id: nat, success: bool, latencyMs: Option<int>, ts: int)
      modifies this
      ensures View() == Changed(old(View()), Mark(id, success, latencyMs, ts))
    {
      if id !in rows {
        return;
      }
      var r := rows[id];
      if success {
        r := r.(lastCheck := Some(ts), latencyMs := Some(if latencyMs.Some? then latencyMs.value else 0));
        r := r.(uptimePct := Min(100.0, r.uptimePct * 0.9 + 10.0));
        r := r.(failCount := 0, active := true);
      } else {
        r := r.(lastCheck := Some(ts), uptimePct := Max(0.0, r.uptimePct * 0.9));
        r := r.(failCount := r.failCount + 1, active := if r.failCount >= 4 then false else r.active);
      }
      rows := rows[id := r];
    }

    /** Active rows by latency (unmeasured first), then by uptime descending, at most 200.  Rows that
        tie come in id order. */
    method ActiveProxies() returns (listed: seq<nat>)
      ensures listed == Listing(View())
    {
      var ids: seq<nat> := [];
      for id := 0 to nextId
        invariant ids == ActiveIds(View(), id)
      {
        if id in rows && rows[id].active && rows[id].failCount < MAX_FAILURES {
          ids := ids + [id];
        }
      }
      var sorted: seq<nat> := Sort(ids, ListedBefore(View()));
      listed := if |sorted| <= LISTING_LIMIT then sorted else sorted[..LISTING_LIMIT];
    }
  }

  predicate IsListable(t: Table, id: nat) {
    id in t.rows && t.rows[id].active && t.rows[id].failCount < MAX_FAILURES
  }

  function ActiveIds(t: Table, upTo: nat): seq<nat> {
    if upTo == 0 then []
    else if IsListable(t, upTo - 1) then ActiveIds(t, upTo - 1) + [upTo - 1]
    else ActiveIds(t, upTo - 1)
  }

  /** SQL puts a missing latency before every number. */
  predicate Faster(x: Option<int>, y: Option<int>) {
    y.Some? && (x.None? || x.value < y.value)
  }

  const NO_ROW := ProxyRow("", "", None, None, false, None, None, 0.0, 0, 0)

  function RowOf(t: Table, id: nat): ProxyRow {
    if id in t.rows then t.rows[id] else NO_ROW
  }

  predicate RowBefore(x: ProxyRow, y: ProxyRow) {
    Faster(x.latencyMs, y.latencyMs) || (!Faster(y.latencyMs, x.latencyMs) && x.uptimePct > y.uptimePct)
  }

  function ListedBefore(t: Table): (nat, nat) -> bool {
    (a: nat, b: nat) => RowBefore(RowOf(t, a), RowOf(t, b))
  }

  function Listing(t: Table): seq<nat> {
    var sorted := SortBy(ActiveIds(t, t.nextId), ListedBefore(t));
    if |sorted| <= LISTING_LIMIT then sorted else sorted[..LISTING_LIMIT]
  }

  // ----- invariants -------------------------------------------------------------------------------------

  ghost predicate Distinct<T>(s: seq<T>) {
    forall i, j :: 0 <= i < j < |s| ==> s[i] != s[j]
  }

  ghost predicate RowHealthy(r: ProxyRow) {
    (r.active <==> r.failCount < 5) && 0.0 <= r.uptimePct <= 100.0
  }

  ghost predicate Healthy(t: Table) {
    && t.nextId >= 1
    && (forall id :: id in t.rows ==> 1 <= id < t.nextId && RowHealthy(t.rows[id]))
    && (forall a, b :: a in t.rows && b in t.rows && t.rows[a].url == t.rows[b].url ==> a == b)
  }

  /** Neither MIN nor MAX ever changes a value. */
  lemma UptimeStaysInRange(r: ProxyRow, success: bool, latencyMs: Option<int>, ts: int)
    requires RowHealthy(r)
    ensures RowHealthy(Marked(r, success, latencyMs, ts))
    ensures Marked(r, success, latencyMs, ts).uptimePct == r.uptimePct * 0.9 + if success then 10.0 else 0.0
  {
  }

  lemma {:induction false} IdOfFinds(t: Table, url: string, upTo: nat)
    ensures var id := IdOf(t, url, upTo);
      if id == 0 then forall k :: 1 <= k <= upTo && k in t.rows ==> t.rows[k].url != url
      else id <= upTo && id in t.rows && t.rows[id].url == url
  {
    if upTo > 0 { IdOfFinds(t, url, upTo - 1); }
  }

  lemma ChangeKeepsHealthy(t: Table, c: Change)
    requires Healthy(t)
    ensures Healthy(Changed(t, c))
  {
    match c
    case Upsert(url, _, _, _, _) => IdOfFinds(t, url, t.nextId);
    case Mark(id, success, latencyMs, ts) =>
      if id in t.rows { UptimeStaysInRange(t.rows[id], success, latencyMs, ts); }
    case _ =>
  }

  function ChangedBy(changes: seq<Change>): Table {
    if changes == [] then EMPTY_TABLE else Changed(ChangedBy(changes[..|changes| - 1]), changes[|changes| - 1])
  }

  /** In every reachable table a row is active exactly while its failure count is under five, uptime is a
      percentage, and urls are unique. */
  lemma {:induction false} ReachableHealthy(changes: seq<Change>)
    ensures Healthy(ChangedBy(changes))
  {
    if changes != [] {
      ReachableHealthy(changes[..|changes| - 1]);
      ChangeKeepsHealthy(ChangedBy(changes[..|changes| - 1]), changes[|changes| - 1]);
    }
  }

  function FailTimes(t: Table, id: nat, n: nat): Table {
    if n == 0 then t else Changed(FailTimes(t, id, n - 1), Mark(id, false, None, n))
  }

  /** Exactly five consecutive failures disable a proxy, counted from its last reset. */
  lemma {:induction false} FiveFailuresDisable(t: Table, id: nat, n: nat)
    requires Healthy(t) && id in t.rows
    ensures var t' := FailTimes(t, id, n);
      && Healthy(t') && id in t'.rows
      && t'.rows[id].failCount == t.rows[id].failCount + n
      && (t'.rows[id].active <==> t.rows[id].failCount + n < 5)
  {
    if n > 0 {
      FiveFailuresDisable(t, id, n - 1);
      ChangeKeepsHealthy(FailTimes(t, id, n - 1), Mark(id, false, None, n));
    }
  }

  // ----- the listing ------------------------------------------------------------------------------------

  lemma {:induction false} ActiveIdsAre(t: Table, upTo: nat)
    ensures forall id: nat :: id in ActiveIds(t, upTo) <==> id < upTo && IsListable(t, id)
    ensures forall i, j :: 0 <= i < j < |ActiveIds(t, upTo)| ==> ActiveIds(t, upTo)[i] < ActiveIds(t, upTo)[j]
  {
    if upTo > 0 {
      ActiveIdsAre(t, upTo - 1);
      var before := ActiveIds(t, upTo - 1);
      forall i | 0 <= i < |before| ensures before[i] < upTo - 1 {
        assert before[i] in before;
      }
    }
  }

  lemma DistinctPermuted(r: seq<nat>, s: seq<nat>)
    requires Distinct(r) && multiset(r) == multiset(s)
    ensures Distinct(s)
  {
    forall i, j | 0 <= i < j < |s| ensures s[i] != s[j] {
      if s[i] == s[j] {
        assert s == s[..j] + [s[j]] + s[j + 1..];
        assert s[i] in s[..j];
        assert multiset(s)[s[i]] >= 2;
        OnceEach(r, s[i]);
      }
    }
  }

  lemma {:induction false} OnceEach(r: seq<nat>, x: nat)
    requires Distinct(r)
    ensures multiset(r)[x] <= 1
  {
    if r != [] {
      var front, last := r[..|r| - 1], r[|r| - 1];
      OnceEach(front, x);
      assert r == front + [last];
      if x == last { assert x !in front; }
    }
  }

  /** The listing names active rows, each once, best first; when it is full, nothing left out would come
      before anything listed. */
  lemma ListingIs(t: Table)
    requires Healthy(t)
    ensures var listed, before := Listing(t), ListedBefore(t);
      && Distinct(listed) && |listed| <= 200 && Ordered(listed, before)
      && (forall id :: id in listed ==> id in t.rows && t.rows[id].active)
      && (forall id :: id in t.rows && t.rows[id].active && id !in listed ==>
            |listed| == 200 && forall a :: a in listed ==> !before(id, a))
  {
    SortedRows(t);
  }

  lemma SortedRows(t: Table)
    requires Healthy(t)
    ensures var sorted := SortBy(ActiveIds(t, t.nextId), ListedBefore(t));
      && Distinct(sorted) && Ordered(sorted, ListedBefore(t))
      && (forall id :: id in sorted <==> id in t.rows && t.rows[id].active)
  {
    var ids, before := ActiveIds(t, t.nextId), ListedBefore(t);
    var sorted := SortBy(ids, before);
    ActiveIdsAre(t, t.nextId);
    SortPermutes(ids, before);
    SameElements(sorted, ids);
    DistinctPermuted(ids, sorted);
    SortOrders(ids, before);
    forall id ensures id in sorted <==> id in t.rows && t.rows[id].active {
      assert id in sorted <==> id in ids;
      assert id in t.rows ==> RowHealthy(t.rows[id]);
    }
  }

  /** The order of the listing, in plain terms: unmeasured latencies first, then by latency, and rows of equal
      latency by uptime, best first. */
  lemma ListingOrdered(t: Table, i: nat, j: nat)
    requires Healthy(t) && i < j < |Listing(t)|
    ensures Listing(t)[i] in t.rows && Listing(t)[j] in t.rows
    ensures var x, y := t.rows[Listing(t)[i]], t.rows[Listing(t)[j]];
      && (x.latencyMs.None? || (y.latencyMs.Some? && x.latencyMs.value <= y.latencyMs.value))
      && (x.latencyMs == y.latencyMs ==> x.uptimePct >= y.uptimePct)
  {
    ListingIs(t);
    var listed := Listing(t);
    assert listed[i] in listed && listed[j] in listed;
    assert !ListedBefore(t)(listed[j], listed[i]);
  }

  /** Adding a proxy: a known url keeps its row, with its history, and is active again without failures; a new
      one gets an id above all others, full uptime and no measurements. */
  lemma UpsertExactly(
    t: Table, url: string, protocol: string, country: Option<string>, anonymity: Option<string>, ts: int)
    returns (id: nat)
    requires Healthy(t)
    ensures var t' := Changed(t, Upsert(url, protocol, country, anonymity, ts));
      && id in t'.rows && t'.rows[id].url == url && t'.rows[id].active && t'.rows[id].failCount == 0
      && t'.rows[id].protocol == protocol && t'.rows[id].country == country && t'.rows[id].anonymity == anonymity
      && (forall k :: k != id ==> (k in t'.rows <==> k in t.rows) && (k in t.rows ==> t'.rows[k] == t.rows[k]))
      && (if id in t.rows then
            && t.rows[id].url == url && t'.rows[id].uptimePct == t.rows[id].uptimePct
            && t'.rows[id].latencyMs == t.rows[id].latencyMs && t'.rows[id].lastCheck == t.rows[id].lastCheck
            && t'.rows[id].addedAt == t.rows[id].addedAt
          else
            && (forall k :: k in t.rows ==> k < id && t.rows[k].url != url)
            && t'.rows[id].uptimePct == 100.0 && t'.rows[id].latencyMs == None && t'.rows[id].lastCheck == None
            && t'.rows[id].addedAt == ts)
  {
    IdOfFinds(t, url, t.nextId);
    var found := IdOf(t, url, t.nextId);
    id := if found in t.rows then found else t.nextId;
  }

  /** The first proxy ever added. */
  lemma FirstRow(url: string, protocol: string, ts: int) returns (t: Table)
    ensures t == Changed(EMPTY_TABLE, Upsert(url, protocol, None, None, ts))
    ensures 1 in t.rows && t.rows[1].url == url && t.rows[1].active && t.rows[1].failCount == 0
    ensures t.nextId == 2 && ActiveIds(t, t.nextId) == [1]
  {
    t := Changed(EMPTY_TABLE, Upsert(url, protocol, None, None, ts));
    assert IdOf(EMPTY_TABLE, url, 1) == IdOf(EMPTY_TABLE, url, 0);
    assert !IsListable(t, 0) && ActiveIds(t, 1) == ActiveIds(t, 0);
    assert ActiveIds(t, 2) == ActiveIds(t, 1) + [1];
  }
}
