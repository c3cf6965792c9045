/** Login lockout: the table of failed attempts and the handler that checks it before recording.
    A handler runs as one step at one reading of the clock; password checking is its input. */
module LoginGuard {
  import opened Types

  const MAX_FAILED_LOGINS := 5
  const LOGIN_LOCK_SECS := 900
  const LOGIN_WINDOW_SECS := 600

  datatype AttemptRow = AttemptRow(attempts: nat, firstAt: nat, lastAt: nat, lockedUntil: nat)

  datatype Outcome = Locked(secondsLeft: nat) | Granted | Rejected

  class Guard {
    const lower: string -> string
    var rows: map<string, AttemptRow>

    constructor (lower: string -> string)
      ensures this.lower == lower && rows == map[]
    {
      this.lower := lower;
      rows := map[];
    }

    function Key(username: string): string {
      KeyOf(lower, username)
    }

    method LockoutSecs(username: string, now: nat) returns (r: Option<nat>)
      ensures r == Lockout(rows, Key(username), now)
    {
      var key := Key(username);
      if key in rows && rows[key].lockedUntil > now {
        r := Some(rows[key].lockedUntil - now);
      } else {
        r := None;
      }
    }

    /** The upsert: count within the window or start over, and lock at the fifth. */
    method RecordFailed(username: string, now: nat)
      modifies this
      ensures rows == old(rows)[Key(username) := Recorded(old(rows), Key(username), now)]
    {
      var key := Key(username);
      if key !in rows {
        rows := rows[key := AttemptRow(1, now, now, 0)];
      } else {
        var r := rows[key];
        var outside := r.lastAt < now - LOGIN_WINDOW_SECS;
        var attempts := if outside then 1 else r.attempts + 1;
        rows := rows[key := AttemptRow(
          attempts,
          if outside then now else r.firstAt,
          now,
          if attempts >= MAX_FAILED_LOGINS then now + LOGIN_LOCK_SECS else r.lockedUntil)];
      }
    }

    method ClearAttempts(username: string)
      modifies this
      ensures rows == old(rows) - {Key(username)}
    {
      rows := rows - {Key(username)};
    }

    /** Refuse while locked, whatever the password; otherwise clear on success and record on failure. */
    method AuthLogin(username: string, passwordOk: bool, now: nat) returns (outcome: Outcome)
      modifies this
      ensures (rows, outcome) == Serve(old(rows), Attempt(Key(username), passwordOk, now))
    {
      var lockout := LockoutSecs(username, now);
      if lockout.Some? {
        return Locked(lockout.value);
      }
      if passwordOk {
        ClearAttempts(username);
        outcome := Granted;
      } else {
        RecordFailed(username, now);
        outcome := Rejected;
      }
    }
  }

  /** The row of a user name. */
  function KeyOf(lower: string -> string, username: string): string {
    "u:" + lower(username)
  }

  // ----- one step on snapshots ------------------------------------------------------------------------

  datatype Attempt = Attempt(key: string, passwordOk: bool, at: nat)

  function Lockout(rows: map<string, AttemptRow>, key: string, now: nat): Option<nat> {
    if key in rows && rows[key].lockedUntil > now then Some(rows[key].lockedUntil - now) else None
  }

  function Recorded(rows: map<string, AttemptRow>, key: string, now: nat): AttemptRow {
    if key !in rows then AttemptRow(1, now, now, 0)
    else
      var r := rows[key];
      if now - r.lastAt > LOGIN_WINDOW_SECS then AttemptRow(1, now, now, r.lockedUntil)
      else
        AttemptRow(r.attempts + 1, r.firstAt, now,
          if r.attempts + 1 >= MAX_FAILED_LOGINS then now + LOGIN_LOCK_SECS else r.lockedUntil)
  }

  function Serve(rows: map<string, AttemptRow>, a: Attempt): (map<string, AttemptRow>, Outcome) {
    match Lockout(rows, a.key, a.at)
    case Some(secs) => (rows, Locked(secs))
    case None =>
      if a.passwordOk then (rows - {a.key}, Granted)
      else (rows[a.key := Recorded(rows, a.key, a.at)], Rejected)
  }

  // ----- whole runs -------------------------------------------------------------------------------------

  function Run(log: seq<Attempt>): map<string, AttemptRow> {
    if log == [] then map[] else Serve(Run(log[..|log| - 1]), log[|log| - 1]).0
  }

  ghost predicate ClockForward(log: seq<Attempt>) {
    forall i, j :: 0 <= i < j < |log| ==> log[i].at <= log[j].at
  }

  /** The times of the failures recorded for a key since its last successful login. */
  function Failures(log: seq<Attempt>, key: string): seq<nat> {
    if log == [] then []
    else
      var front, a := log[..|log| - 1], log[|log| - 1];
      FailuresAfter(Failures(front, key), Serve(Run(front), a).1, a, key)
  }

  function FailuresAfter(before: seq<nat>, outcome: Outcome, a: Attempt, key: string): seq<nat> {
    if a.key != key then before
    else
      match outcome
      case Locked(_) => before
      case Granted => []
      case Rejected => before + [a.at]
  }

  /** How many failures at the end of the list follow each other by no more than the window. */
  function Streak(times: seq<nat>): nat {
    if |times| <= 1 then |times|
    else if times[|times| - 1] - times[|times| - 2] > LOGIN_WINDOW_SECS then 1
    else Streak(times[..|times| - 1]) + 1
  }

  /** The row of a key, said over its history. */
  ghost predicate Explains(times: seq<nat>, rows: map<string, AttemptRow>, key: string) {
    && (times != [] ==> 1 <= Streak(times) <= |times|)
    && (key in rows <==> times != [])
    && (key in rows ==>
          var r := rows[key];
          && r.attempts == Streak(times) && r.lastAt == times[|times| - 1]
          && r.firstAt == times[|times| - Streak(times)]
          && (if r.attempts == 5 then r.lockedUntil == r.lastAt + 900 else r.lockedUntil <= r.lastAt))
  }

  /** Failures are in time order, and one that completes a streak of five is followed by fifteen
      minutes without any. */
  ghost predicate Spaced(times: seq<nat>) {
    forall i :: 1 <= i < |times| ==> SpacedAt(times, i)
  }

  predicate SpacedAt(times: seq<nat>, i: nat)
    requires 1 <= i < |times|
  {
    && times[i - 1] <= times[i]
    && (Streak(times[..i]) == MAX_FAILED_LOGINS ==> times[i - 1] + LOGIN_LOCK_SECS <= times[i])
  }

  lemma SpacedPrefix(times: seq<nat>, n: nat)
    requires Spaced(times) && n <= |times|
    ensures Spaced(times[..n])
  {
    forall i | 1 <= i < n ensures SpacedAt(times[..n], i) {
      assert times[..n][..i] == times[..i];
      assert SpacedAt(times, i);
    }
  }

  lemma {:induction false} StreakAtMostFive(times: seq<nat>)
    requires Spaced(times)
    ensures Streak(times) <= MAX_FAILED_LOGINS
  {
    if |times| > 1 {
      SpacedPrefix(times, |times| - 1);
      StreakAtMostFive(times[..|times| - 1]);
      assert SpacedAt(times, |times| - 1);
    }
  }

  lemma SpacedSnoc(times: seq<nat>, t: nat)
    requires Spaced(times) && (times != [] ==> times[|times| - 1] <= t)
    requires times != [] && Streak(times) == MAX_FAILED_LOGINS ==> times[|times| - 1] + LOGIN_LOCK_SECS <= t
    ensures Spaced(times + [t])
  {
    var longer := times + [t];
    forall i | 1 <= i < |longer| ensures SpacedAt(longer, i) {
      assert longer[..i] == times[..i];
      if i < |times| { assert SpacedAt(times, i); } else { assert times[..i] == times; }
    }
  }

  /** One recorded failure. */
  lemma ExplainFailure(times: seq<nat>, rows: map<string, AttemptRow>, a: Attempt)
    requires Explains(times, rows, a.key) && Spaced(times) && (times != [] ==> times[|times| - 1] <= a.at)
    requires Lockout(rows, a.key, a.at).None?
    ensures Explains(times + [a.at], rows[a.key := Recorded(rows, a.key, a.at)], a.key)
    ensures Spaced(times + [a.at])
  {
    StreakAtMostFive(times);
    SpacedSnoc(times, a.at);
    StreakAtMostFive(times + [a.at]);
  }

  lemma ExplainStep(times: seq<nat>, rows: map<string, AttemptRow>, a: Attempt, key: string)
    requires Explains(times, rows, key) && Spaced(times) && (times != [] ==> times[|times| - 1] <= a.at)
    ensures var (rows', outcome) := Serve(rows, a);
      var times' := FailuresAfter(times, outcome, a, key);
      Explains(times', rows', key) && Spaced(times') && (times' != [] ==> times'[|times'| - 1] <= a.at)
  {
    if a.key == key && Lockout(rows, key, a.at).None? && !a.passwordOk { ExplainFailure(times, rows, a); }
  }

  /** In every run with a clock that does not go back: the stored count is the streak of the recorded
      failures, and the key is locked for fifteen minutes exactly by a streak of five. */
  lemma {:induction false} RunExplained(log: seq<Attempt>, key: string)
    requires ClockForward(log)
    ensures Explains(Failures(log, key), Run(log), key) && Spaced(Failures(log, key))
    ensures var times := Failures(log, key); times != [] ==> times[|times| - 1] <= log[|log| - 1].at
  {
    if log != [] {
      var front, a := log[..|log| - 1], log[|log| - 1];
      RunExplained(front, key);
      assert Failures(front, key) != [] ==> Failures(front, key)[|Failures(front, key)| - 1] <= a.at;
      LastAttempt(log, key);
      ExplainStep(Failures(front, key), Run(front), a, key);
    }
  }

  lemma LastAttempt(log: seq<Attempt>, key: string)
    requires log != []
    ensures var front, a := log[..|log| - 1], log[|log| - 1];
      && Run(log) == Serve(Run(front), a).0
      && Failures(log, key) == FailuresAfter(Failures(front, key), Serve(Run(front), a).1, a, key)
  {
  }

  /** The stored count never exceeds five. */
  lemma AttemptsAtMostFive(log: seq<Attempt>, key: string)
    requires ClockForward(log) && key in Run(log)
    ensures 1 <= Run(log)[key].attempts <= 5
  {
    RunExplained(log, key);
    StreakAtMostFive(Failures(log, key));
  }

  /** The next attempt is refused exactly within fifteen minutes of a failure that completed a streak of five. */
  lemma RefusedExactly(log: seq<Attempt>, a: Attempt)
    requires ClockForward(log + [a])
    ensures var times := Failures(log, a.key);
      Serve(Run(log), a).1.Locked? <==>
        Streak(times) == 5 && a.at < times[|times| - 1] + 900
  {
    FailuresBefore(log, a);
    ExplainedBefore(log, a);
    LockedBy(Failures(log, a.key), Run(log), a);
  }

  lemma LockedBy(times: seq<nat>, rows: map<string, AttemptRow>, a: Attempt)
    requires Explains(times, rows, a.key) && (times != [] ==> times[|times| - 1] <= a.at)
    ensures Serve(rows, a).1.Locked? <==> Streak(times) == 5 && a.at < times[|times| - 1] + 900
  {
  }

  lemma ClockSnoc(log: seq<Attempt>, a: Attempt)
    requires ClockForward(log + [a])
    ensures ClockForward(log) && (log != [] ==> log[|log| - 1].at <= a.at)
  {
    var longer := log + [a];
    assert longer[|log|] == a && forall i :: 0 <= i < |log| ==> longer[i] == log[i];
  }

  lemma ExplainedBefore(log: seq<Attempt>, a: Attempt)
    requires ClockForward(log + [a])
    ensures Explains(Failures(log, a.key), Run(log), a.key)
  {
    ClockSnoc(log, a);
    RunExplained(log, a.key);
  }

  lemma FailuresBefore(log: seq<Attempt>, a: Attempt)
    requires ClockForward(log + [a])
    ensures var times := Failures(log, a.key); times != [] ==> times[|times| - 1] <= a.at
  {
    ClockSnoc(log, a);
    RunExplained(log, a.key);
  }

  // ----- user names ----------------------------------------------------------------------------------

  /** A login as a user makes it. */
  datatype Login = Login(username: string, passwordOk: bool, at: nat)

  function AttemptOf(lower: string -> string, l: Login): Attempt {
    Attempt(KeyOf(lower, l.username), l.passwordOk, l.at)
  }

  /** The attempts the handler sees. */
  function AttemptsOf(lower: string -> string, logins: seq<Login>): seq<Attempt> {
    if logins == [] then []
    else AttemptsOf(lower, logins[..|logins| - 1]) + [AttemptOf(lower, logins[|logins| - 1])]
  }

  /** What the handler answers to a login after these. */
  function Answer(lower: string -> string, logins: seq<Login>, l: Login): Outcome {
    Serve(Run(AttemptsOf(lower, logins)), AttemptOf(lower, l)).1
  }

  /** The logins under names that lower to the same as this one. */
  function Alike(lower: string -> string, logins: seq<Login>, username: string): seq<Login> {
    if logins == [] then []
    else
      var before, l := Alike(lower, logins[..|logins| - 1], username), logins[|logins| - 1];
      if lower(l.username) == lower(username) then before + [l] else before
  }

  lemma KeysApart(lower: string -> string, a: string, b: string)
    ensures KeyOf(lower, a) == KeyOf(lower, b) <==> lower(a) == lower(b)
  {
    assert KeyOf(lower, a)[2..] == lower(a) && KeyOf(lower, b)[2..] == lower(b);
  }

  /** An attempt touches no row but its own, and looks at no other. */
  lemma ServeRow(rows: map<string, AttemptRow>, rows': map<string, AttemptRow>, a: Attempt, key: string)
    requires RowAt(rows, key) == RowAt(rows', key)
    ensures a.key == key ==> Serve(rows, a).1 == Serve(rows', a).1
    ensures a.key == key ==> RowAt(Serve(rows, a).0, key) == RowAt(Serve(rows', a).0, key)
    ensures a.key != key ==> RowAt(Serve(rows, a).0, key) == RowAt(rows, key)
  {
  }

  function RowAt(rows: map<string, AttemptRow>, key: string): Option<AttemptRow> {
    if key in rows then Some(rows[key]) else None
  }

  lemma {:induction false} RowByName(lower: string -> string, logins: seq<Login>, username: string)
    ensures var key := KeyOf(lower, username);
      RowAt(Run(AttemptsOf(lower, logins)), key) == RowAt(Run(AttemptsOf(lower, Alike(lower, logins, username))), key)
  {
    if logins != [] {
      var front, l := logins[..|logins| - 1], logins[|logins| - 1];
      var alike, key := Alike(lower, front, username), KeyOf(lower, username);
      RowByName(lower, front, username);
      KeysApart(lower, l.username, username);
      ServeRow(Run(AttemptsOf(lower, front)), Run(AttemptsOf(lower, alike)), AttemptOf(lower, l), key);
      if lower(l.username) == lower(username) {
        assert (alike + [l])[..|alike|] == alike;
      }
    }
  }

  /** Over any run the answer to a user depends on exactly the earlier logins under names that lower to the
      same: names that do not never affect each other, ... */
  lemma OnlyOwnLogins(lower: string -> string, logins: seq<Login>, l: Login)
    ensures Answer(lower, logins, l) == Answer(lower, Alike(lower, logins, l.username), l)
  {
    RowByName(lower, logins, l.username);
    ServeRow(Run(AttemptsOf(lower, logins)), Run(AttemptsOf(lower, Alike(lower, logins, l.username))),
      AttemptOf(lower, l), KeyOf(lower, l.username));
  }

  /** These two runs differ at most in the spelling of names that lower to the same. */
  ghost predicate SameButSpelling(lower: string -> string, a: seq<Login>, b: seq<Login>) {
    && |a| == |b|
    && (forall i :: 0 <= i < |a| ==> Respelled(lower, a[i], b[i]))
  }

  predicate Respelled(lower: string -> string, a: Login, b: Login) {
    lower(a.username) == lower(b.username) && a.passwordOk == b.passwordOk && a.at == b.at
  }

  /** ... and names that do share one count. */
  lemma SpellingIsOne(lower: string -> string, a: seq<Login>, b: seq<Login>, l: Login, m: Login)
    requires SameButSpelling(lower, a, b) && Respelled(lower, l, m)
    ensures Answer(lower, a, l) == Answer(lower, b, m)
  {
    SameAttempts(lower, a, b);
    KeysApart(lower, l.username, m.username);
  }

  lemma {:induction false} SameAttempts(lower: string -> string, a: seq<Login>, b: seq<Login>)
    requires SameButSpelling(lower, a, b)
    ensures AttemptsOf(lower, a) == AttemptsOf(lower, b)
  {
    if a != [] {
      var k := |a| - 1;
      assert Respelled(lower, a[k], b[k]);
      KeysApart(lower, a[k].username, b[k].username);
      forall i | 0 <= i < k ensures Respelled(lower, a[..k][i], b[..k][i]) { assert Respelled(lower, a[i], b[i]); }
      SameAttempts(lower, a[..k], b[..k]);
    }
  }

  /** The answers to a whole run. */
  function Answers(lower: string -> string, logins: seq<Login>): seq<Outcome> {
    if logins == [] then []
    else
      var front, l := logins[..|logins| - 1], logins[|logins| - 1];
      Answers(lower, front) + [Answer(lower, front, l)]
  }

  lemma NextLogin(lower: string -> string, logins: seq<Login>, i: nat)
    requires i < |logins|
    ensures var before, l := logins[..i], logins[i];
      var step := Serve(Run(AttemptsOf(lower, before)), AttemptOf(lower, l));
      && Run(AttemptsOf(lower, logins[..i + 1])) == step.0
      && Answers(lower, logins[..i + 1]) == Answers(lower, before) + [step.1]
  {
    assert logins[..i + 1][..i] == logins[..i];
  }

  /** A whole run through the handler: the rows it leaves, and the answers it gives. */
  method ServeAll(guard: Guard, logins: seq<Login>) returns (answers: seq<Outcome>)
    requires guard.rows == map[]
    modifies guard
    ensures guard.rows == Run(AttemptsOf(guard.lower, logins))
    ensures answers == Answers(guard.lower, logins)
  {
    answers := [];
    ghost var lower := guard.lower;
    for i := 0 to |logins|
      invariant guard.rows == Run(AttemptsOf(lower, logins[..i])) && answers == Answers(lower, logins[..i])
    {
      var l := logins[i];
      NextLogin(lower, logins, i);
      var answer := guard.AuthLogin(l.username, l.passwordOk, l.at);
      answers := answers + [answer];
    }
    assert logins[..|logins|] == logins;
  }

  // ----- the window -----------------------------------------------------------------------------------

  function CountIn(times: seq<nat>, start: nat): nat {
    if times == [] then 0
    else
      CountIn(times[..|times| - 1], start)
      + if start <= times[|times| - 1] <= start + 600 then 1 else 0
  }

  lemma {:induction false} CountSkips(times: seq<nat>, start: nat, m: nat)
    requires m <= |times| && forall i :: 0 <= i < m ==> times[i] < start
    ensures CountIn(times, start) <= |times| - m
  {
    if |times| > m {
      CountSkips(times[..|times| - 1], start, m);
    } else if times != [] {
      CountSkips(times[..|times| - 1], start, m - 1);
    }
  }

  lemma {:induction false} TimesSorted(times: seq<nat>, i: nat, j: nat)
    requires Spaced(times) && i <= j < |times|
    ensures times[i] <= times[j]
  {
    if i < j {
      TimesSorted(times, i, j - 1);
      assert SpacedAt(times, j);
    }
  }

  /** Without a gap larger than the window among `n` successive failures, the streak is at least `n`. */
  lemma {:induction false} NoGapStreak(times: seq<nat>, i: nat, n: nat)
    requires 0 < n && i + n <= |times|
    requires forall k :: i < k < i + n ==> times[k] - times[k - 1] <= LOGIN_WINDOW_SECS
    ensures Streak(times[..i + n]) >= n
  {
    var cut := times[..i + n];
    if n > 1 {
      NoGapStreak(times, i, n - 1);
      assert cut[..|cut| - 1] == times[..i + n - 1];
    }
  }

  /** Six successive recorded failures never fit in a closed window of ten minutes. */
  lemma SixSpan(times: seq<nat>, i: nat)
    requires Spaced(times) && i + 5 < |times|
    ensures times[i + 5] > times[i] + 600
  {
    TimesSorted(times, i + 4, i + 5);
    assert SpacedAt(times, i + 5);
    if FiveUpTo(times, i + 4) {
      TimesSorted(times, i, i + 4);
      FiveMakeStreak(times, i + 4);
    }
  }

  lemma {:induction false} AtMostFiveCounted(times: seq<nat>, start: nat)
    requires Spaced(times)
    ensures CountIn(times, start) <= 5
  {
    if |times| <= 5 {
      CountSkips(times, start, 0);
    } else {
      var last, m := times[|times| - 1], |times| - 5;
      if start <= last <= start + LOGIN_WINDOW_SECS {
        SixSpan(times, m - 1);
        forall i | 0 <= i < m ensures times[i] < start { TimesSorted(times, i, m - 1); }
        CountSkips(times, start, m);
      } else {
        SpacedPrefix(times, |times| - 1);
        AtMostFiveCounted(times[..|times| - 1], start);
      }
    }
  }

  /** Over any run: with no successful login in between, any closed ten-minute window holds at most
      five recorded failures for one name. */
  lemma WindowHoldsFive(log: seq<Attempt>, key: string, start: nat)
    requires ClockForward(log)
    ensures CountIn(Failures(log, key), start) <= 5
  {
    RunExplained(log, key);
    AtMostFiveCounted(Failures(log, key), start);
  }

  // ----- what the window is measured against ----------------------------------------------------------

  /** The lock as documented: some five successive failures lie within one window, and the last of them is
      less than fifteen minutes old. */
  ghost predicate FiveInWindow(times: seq<nat>, now: nat) {
    exists i :: 4 <= i < |times| && FiveUpTo(times, i) && now < times[i] + 900
  }

  /** The failure at `i` and the four before it lie within one window. */
  predicate FiveUpTo(times: seq<nat>, i: nat)
    requires 4 <= i < |times|
  {
    times[i] <= times[i - 4] + 600
  }

  /** The lock as coded, over the history (see `RefusedExactly`). */
  ghost predicate LockedOut(times: seq<nat>, now: nat) {
    Streak(times) == 5 && now < times[|times| - 1] + 900
  }

  lemma {:induction false} StreakAtMostAll(times: seq<nat>)
    ensures Streak(times) <= |times|
  {
    if |times| > 1 { StreakAtMostAll(times[..|times| - 1]); }
  }

  /** A failure that completes a streak of five stays fifteen minutes ahead of everything after it. */
  lemma LaterIsFar(times: seq<nat>, i: nat)
    requires Spaced(times) && i < |times| && Streak(times[..i + 1]) == MAX_FAILED_LOGINS
    ensures i == |times| - 1 || times[i] + LOGIN_LOCK_SECS <= times[|times| - 1]
  {
    if i + 1 < |times| {
      assert SpacedAt(times, i + 1);
      TimesSorted(times, i + 1, |times| - 1);
    }
  }

  lemma FiveMakeStreak(times: seq<nat>, i: nat)
    requires Spaced(times) && 4 <= i < |times| && FiveUpTo(times, i)
    ensures Streak(times[..i + 1]) == MAX_FAILED_LOGINS
  {
    forall k | i - 4 < k <= i ensures times[k] - times[k - 1] <= LOGIN_WINDOW_SECS {
      TimesSorted(times, i - 4, k - 1);
      TimesSorted(times, k, i);
    }
    NoGapStreak(times, i - 4, 5);
    SpacedPrefix(times, i + 1);
    StreakAtMostFive(times[..i + 1]);
  }

  /** Five failures within a window, recently, can only be the last five, and they make a streak. */
  lemma RecentFive(times: seq<nat>, i: nat, now: nat)
    requires Spaced(times) && 4 <= i < |times| && FiveUpTo(times, i)
    requires times[|times| - 1] <= now < times[i] + LOGIN_LOCK_SECS
    ensures i == |times| - 1 && Streak(times) == MAX_FAILED_LOGINS
  {
    FiveMakeStreak(times, i);
    LaterIsFar(times, i);
    assert times[..|times|] == times;
  }

  lemma FiveInWindowExactly(times: seq<nat>, now: nat)
    requires Spaced(times) && (times != [] ==> times[|times| - 1] <= now)
    ensures FiveInWindow(times, now) ==> LockedOut(times, now)
    ensures LockedOut(times, now) ==> |times| >= 5 && (FiveInWindow(times, now) <==> FiveUpTo(times, |times| - 1))
  {
    StreakAtMostAll(times);
    if FiveInWindow(times, now) {
      var i :| 4 <= i < |times| && FiveUpTo(times, i) && now < times[i] + LOGIN_LOCK_SECS;
      RecentFive(times, i, now);
    }
  }

  /** Code and documentation, over any run: five failures within a window always lock, and a locked key is
      one the documentation would lock exactly when its last five failures lie within a window. */
  lemma DocumentedLockExactly(log: seq<Attempt>, a: Attempt)
    requires ClockForward(log + [a])
    ensures var times, locked := Failures(log, a.key), Serve(Run(log), a).1.Locked?;
      && (FiveInWindow(times, a.at) ==> locked)
      && (locked ==> |times| >= 5 && (FiveInWindow(times, a.at) <==> FiveUpTo(times, |times| - 1)))
  {
    var times, locked := DocumentedOver(log, a);
  }

  lemma DocumentedOver(log: seq<Attempt>, a: Attempt) returns (times: seq<nat>, locked: bool)
    requires ClockForward(log + [a])
    ensures times == Failures(log, a.key) && locked == Serve(Run(log), a).1.Locked?
    ensures FiveInWindow(times, a.at) ==> locked
    ensures locked ==> |times| >= 5 && (FiveInWindow(times, a.at) <==> FiveUpTo(times, |times| - 1))
  {
    times, locked := RefusedIsLockedOut(log, a);
    LockedAsDocumented(times, a.at, locked);
  }

  lemma LockedAsDocumented(times: seq<nat>, now: nat, locked: bool)
    requires Spaced(times) && (times != [] ==> times[|times| - 1] <= now) && locked == LockedOut(times, now)
    ensures FiveInWindow(times, now) ==> locked
    ensures locked ==> |times| >= 5 && (FiveInWindow(times, now) <==> FiveUpTo(times, |times| - 1))
  {
    FiveInWindowExactly(times, now);
  }

  lemma RefusedIsLockedOut(log: seq<Attempt>, a: Attempt) returns (times: seq<nat>, locked: bool)
    requires ClockForward(log + [a])
    ensures times == Failures(log, a.key) && locked == Serve(Run(log), a).1.Locked?
    ensures Spaced(times) && (times != [] ==> times[|times| - 1] <= a.at)
    ensures locked == LockedOut(times, a.at)
  {
    times, locked := Failures(log, a.key), Serve(Run(log), a).1.Locked?;
    FailuresBefore(log, a);
    ClockSnoc(log, a);
    RunExplained(log, a.key);
    RefusedExactly(log, a);
  }

  /** The lock is documented as "five failures within the window"; the code compares each failure only
      with the one before it.  A streak of five may therefore span up to four windows ... */
  lemma {:induction false} StreakSpan(times: seq<nat>, n: nat)
    requires 0 < n <= |times| && Streak(times) >= n
    ensures times[|times| - 1] - times[|times| - n] <= (n - 1) * 600
  {
    if n > 1 { StreakSpan(times[..|times| - 1], n - 1); }
  }

  /** ... and at that extreme, and no further, it does lock: five failures `gap` seconds apart leave the key
      locked for 900 seconds from the fifth on, exactly when the gap is at most 600. */
  lemma SlowFailuresLock(key: string, gap: nat)
    ensures var log := Paced(key, gap, 5);
      && ClockForward(log)
      && Lockout(Run(log), key, 4 * gap + 899) == (if gap <= 600 then Some(1) else None)
      && Lockout(Run(log), key, 4 * gap + 900) == None
  {
    PacedClock(key, gap, 5);
    PacedRow(key, gap, 5);
  }

  /** `n` failures, one every `gap` seconds. */
  function Paced(key: string, gap: nat, n: nat): (log: seq<Attempt>)
    ensures |log| == n
  {
    if n == 0 then [] else Paced(key, gap, n - 1) + [Attempt(key, false, (n - 1) * gap)]
  }

  lemma {:induction false} PacedAt(key: string, gap: nat, n: nat, i: nat)
    requires i < n
    ensures Paced(key, gap, n)[i] == Attempt(key, false, i * gap)
  {
    if i < n - 1 { PacedAt(key, gap, n - 1, i); }
  }

  lemma PacedClock(key: string, gap: nat, n: nat)
    ensures ClockForward(Paced(key, gap, n))
  {
    forall i, j | 0 <= i < j < n ensures Paced(key, gap, n)[i].at <= Paced(key, gap, n)[j].at {
      PacedAt(key, gap, n, i);
      PacedAt(key, gap, n, j);
      LaterTurn(i, j, gap);
    }
  }

  lemma {:induction false} LaterTurn(i: nat, j: nat, gap: nat)
    requires i <= j
    ensures i * gap <= j * gap
  {
    if i < j {
      LaterTurn(i, j - 1, gap);
      assert j * gap == (j - 1) * gap + gap;
    }
  }

  lemma {:induction false} PacedRow(key: string, gap: nat, n: nat)
    requires 0 < n <= 5
    ensures var rows := Run(Paced(key, gap, n));
      && key in rows && rows[key].lastAt == (n - 1) * gap
      && rows[key].attempts == (if gap <= 600 then n else 1)
      && rows[key].lockedUntil == (if n == 5 && gap <= 600 then (n - 1) * gap + 900 else 0)
  {
    var front, a := Paced(key, gap, n - 1), Attempt(key, false, (n - 1) * gap);
    if n > 1 {
      PacedRow(key, gap, n - 1);
      assert (n - 1) * gap == (n - 2) * gap + gap;
    } else {
      assert Run(front) == map[];
    }
  }
}
