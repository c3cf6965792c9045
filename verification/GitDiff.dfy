/** The diff compactor.  The source pushes formatted strings; here each pushed string is an `Item`
    that still says what it was made from. */
module GitDiff {

  const HUNK_MAX_LINES := 100
  const MAX_LINES := 500

  datatype Item =
    | File(name: string)
    | Hunk(header: string)
    | Shown(line: string)
    | Truncated(lines: nat)
    | Stats(added: nat, removed: nat)
    | MoreTruncated
    | SeeFullDiff

  datatype Kind = FileHeader | HunkHeader | Added | Removed | Note | Context

  /** The prefix tests, in the order the loop makes them. */
  function KindOf(line: string): Kind {
    if "diff --git " <= line then FileHeader
    else if "@@" <= line then HunkHeader
    else if "+" <= line && !("+++" <= line) then Added
    else if "-" <= line && !("---" <= line) then Removed
    else if "\\" <= line then Note
    else Context
  }

  /** What the loop counts as a change. */
  predicate IsChanged(line: string) { KindOf(line) == Added || KindOf(line) == Removed }

  /** What a unified diff means by an added or removed line of a hunk, ... */
  predicate IsMarked(line: string) { "+" <= line || "-" <= line }

  /** ... and the ones the loop takes for file header lines instead: text that itself starts with `++` or `--`. */
  predicate IsDoubled(line: string) { "+++" <= line || "---" <= line }

  /** The part of `s` before the first occurrence of `sep`, and whether and where it goes on after it. */
  function Before(s: string, sep: string): (k: nat)
    ensures k <= |s|
  {
    if s == "" || sep <= s then 0 else 1 + Before(s[1..], sep)
  }

  /** `line.split(" b/").nth(1).unwrap_or("unknown")` */
  function FileName(line: string): string {
    var k := Before(line, " b/");
    if k + 3 > |line| then "unknown"
    else
      var rest := line[k + 3..];
      rest[..Before(rest, " b/")]
  }

  // ----- the loop ---------------------------------------------------------------------------------------

  /** The loop's variables. */
  datatype Scan = Scan(
    out: seq<Item>, file: string, added: nat, removed: nat, inHunk: bool, shown: nat, skipped: nat, truncated: bool
  ) {
    /** What is still owed to the current hunk, ... */
    function HunkTail(): seq<Item> {
      if skipped > 0 then [Truncated(skipped)] else []
    }

    /** ... and to the current file. */
    function FileTail(): seq<Item> {
      if file != "" && (added > 0 || removed > 0) then [Stats(added, removed)] else []
    }
  }

  const START := Scan([], "", 0, 0, false, 0, 0, false)

  /** One line of input. */
  method Consume(before: Scan, line: string) returns (s: Scan)
    ensures s == Step(before, line)
  {
    s := before;
    var kind := KindOf(line);
    if kind == FileHeader {
      if s.skipped > 0 {
        s := s.(out := s.out + [Truncated(s.skipped)], truncated := true, skipped := 0);
      }
      assert s.out == before.out + before.HunkTail();
      if s.file != "" && (s.added > 0 || s.removed > 0) {
        s := s.(out := s.out + [Stats(s.added, s.removed)]);
      }
      assert s.out == before.out + before.HunkTail() + before.FileTail();
      s := s.(file := FileName(line));
      s := s.(out := s.out + [File(s.file)]);
      s := s.(added := 0, removed := 0, inHunk := false, shown := 0);
    } else if kind == HunkHeader {
      if s.skipped > 0 {
        s := s.(out := s.out + [Truncated(s.skipped)], truncated := true, skipped := 0);
      }
      assert s.out == before.out + before.HunkTail();
      s := s.(inHunk := true, shown := 0);
      s := s.(out := s.out + [Hunk(line)]);
    } else if s.inHunk {
      if kind == Added {
        s := s.(added := s.added + 1);
        if s.shown < HUNK_MAX_LINES {
          s := s.(out := s.out + [Shown(line)], shown := s.shown + 1);
        } else {
          s := s.(skipped := s.skipped + 1);
        }
      } else if kind == Removed {
        s := s.(removed := s.removed + 1);
        if s.shown < HUNK_MAX_LINES {
          s := s.(out := s.out + [Shown(line)], shown := s.shown + 1);
        } else {
          s := s.(skipped := s.skipped + 1);
        }
      } else if kind != Note && s.shown < HUNK_MAX_LINES && s.shown > 0 {
        s := s.(out := s.out + [Shown(line)], shown := s.shown + 1);
      }
    }
  }

  /** The whole filter: read, stop at the cap, settle what is owed, point to the full diff. */
  method Compress(lines: seq<string>) returns (result: seq<Item>)
    ensures result == Output(lines)
  {
    var s := START;
    for i := 0 to |lines|
      invariant Read(START, lines) == Read(s, lines[i..])
    {
      assert lines[i..][1..] == lines[i + 1..];
      s := Consume(s, lines[i]);
      if |s.out| >= MAX_LINES {
        s := s.(out := s.out + [MoreTruncated], truncated := true);
        break;
      }
    }
    assert s == Read(START, lines);
    result := s.out;
    var wasTruncated := s.truncated;
    if s.skipped > 0 {
      result := result + [Truncated(s.skipped)];
      wasTruncated := true;
    }
    assert result == s.out + s.HunkTail();
    if s.file != "" && (s.added > 0 || s.removed > 0) {
      result := result + [Stats(s.added, s.removed)];
    }
    assert result == s.out + s.HunkTail() + s.FileTail();
    if wasTruncated {
      result := result + [SeeFullDiff];
    }
  }

  function Step(s: Scan, line: string): Scan {
    StepKind(s, line, KindOf(line))
  }

  function StepKind(s: Scan, line: string, kind: Kind): Scan {
    match kind
    case FileHeader =>
      Scan(s.out + s.HunkTail() + s.FileTail() + [File(FileName(line))],
        FileName(line), 0, 0, false, 0, 0, s.truncated || s.skipped > 0)
    case HunkHeader =>
      s.(out := s.out + s.HunkTail() + [Hunk(line)],
        inHunk := true, shown := 0, skipped := 0, truncated := s.truncated || s.skipped > 0)
    case Added => if s.inHunk then Change(s.(added := s.added + 1), line) else s
    case Removed => if s.inHunk then Change(s.(removed := s.removed + 1), line) else s
    case Context =>
      if s.inHunk && 0 < s.shown < HUNK_MAX_LINES then s.(out := s.out + [Shown(line)], shown := s.shown + 1) else s
    case Note => s
  }

  function Change(s: Scan, line: string): Scan {
    if s.shown < HUNK_MAX_LINES then s.(out := s.out + [Shown(line)], shown := s.shown + 1)
    else s.(skipped := s.skipped + 1)
  }

  /** Read lines until they end or the output reaches the cap, which is then noted. */
  function Read(s: Scan, lines: seq<string>): Scan
    decreases |lines|
  {
    if lines == [] then s
    else
      var s' := Step(s, lines[0]);
      if |s'.out| >= MAX_LINES then s'.(out := s'.out + [MoreTruncated], truncated := true)
      else Read(s', lines[1..])
  }

  function Finish(s: Scan): seq<Item> {
    s.out + s.HunkTail() + s.FileTail() + if s.truncated || s.skipped > 0 then [SeeFullDiff] else []
  }

  function Output(lines: seq<string>): seq<Item> {
    Finish(Read(START, lines))
  }

  // ----- the size of the output ---------------------------------------------------------------------------

  /** Nothing is skipped in a hunk before its hundred lines are used up. */
  predicate Sane(s: Scan) {
    s.shown <= HUNK_MAX_LINES && (s.skipped > 0 ==> s.shown == HUNK_MAX_LINES)
  }

  lemma StepGrowth(s: Scan, line: string)
    requires Sane(s)
    ensures var s' := Step(s, line);
      Sane(s') && |s'.out| + |s'.HunkTail()| + |s'.FileTail()| <= |s.out| + 3
      && (|s'.out| > |s.out| ==> s'.skipped == 0)
  {
  }

  lemma {:induction false} ReadSize(s: Scan, lines: seq<string>)
    requires Sane(s) && |s.out| < MAX_LINES && |s.out| + |s.HunkTail()| + |s.FileTail()| <= MAX_LINES + 2
    ensures |Finish(Read(s, lines))| <= MAX_LINES + 4
    decreases |lines|
  {
    if lines != [] {
      StepGrowth(s, lines[0]);
      var s' := Step(s, lines[0]);
      if |s'.out| < MAX_LINES { ReadSize(s', lines[1..]); }
    }
  }

  /** For every input at most 504 items are pushed. */
  lemma OutputBounded(lines: seq<string>)
    ensures |Output(lines)| <= 504
  {
    ReadSize(START, lines);
  }

  // ----- what the output says -------------------------------------------------------------------------------

  function CountKind(lines: seq<string>, kind: Kind): nat {
    if lines == [] then 0 else (if KindOf(lines[0]) == kind then 1 else 0) + CountKind(lines[1..], kind)
  }

  function ChangedLines(lines: seq<string>): nat {
    CountKind(lines, Added) + CountKind(lines, Removed)
  }

  /** The lines of a hunk worth showing: the changed ones, and context from the first changed line on. */
  function Visible(body: seq<string>, started: bool): seq<string> {
    if body == [] then []
    else if IsChanged(body[0]) then [body[0]] + Visible(body[1..], true)
    else if KindOf(body[0]) == Context && started then [body[0]] + Visible(body[1..], true)
    else Visible(body[1..], started)
  }

  function Take(s: seq<string>, n: nat): seq<string> {
    if |s| <= n then s else s[..n]
  }

  function AsShown(lines: seq<string>): seq<Item> {
    if lines == [] then [] else [Shown(lines[0])] + AsShown(lines[1..])
  }

  /** A hunk: its first hundred visible lines, then the number of changed lines not among them. */
  function HunkOut(body: seq<string>): seq<Item> {
    var shown := Take(Visible(body, false), HUNK_MAX_LINES);
    var hidden := ChangedLines(body) - ChangedLines(shown);
    AsShown(shown) + if hidden > 0 then [Truncated(hidden)] else []
  }

  /** How many lines come before the next header of this kind. */
  function Until(lines: seq<string>, kind: Kind): (n: nat)
    ensures n <= |lines|
    ensures forall i :: 0 <= i < n ==> KindOf(lines[i]) != kind
    ensures n < |lines| ==> KindOf(lines[n]) == kind
  {
    if lines == [] || KindOf(lines[0]) == kind then 0 else 1 + Until(lines[1..], kind)
  }

  /** The hunks of one file; whatever precedes the first hunk header is dropped. */
  function HunksOut(lines: seq<string>): seq<Item>
    decreases |lines|
  {
    var start := Until(lines, HunkHeader);
    if start == |lines| then []
    else
      var rest := lines[start + 1..];
      var n := Until(rest, HunkHeader);
      [Hunk(lines[start])] + HunkOut(rest[..n]) + HunksOut(rest[n..])
  }

  /** One file: its hunks, then the exact numbers of added and removed lines in them. */
  function FileOut(name: string, lines: seq<string>): seq<Item> {
    var hunks := lines[Until(lines, HunkHeader)..];
    var added, removed := CountKind(hunks, Added), CountKind(hunks, Removed);
    HunksOut(lines) + if name != "" && (added > 0 || removed > 0) then [Stats(added, removed)] else []
  }

  /** A whole diff: what precedes the first file header belongs to a nameless file. */
  function DiffOut(lines: seq<string>, name: string): seq<Item>
    decreases |lines|
  {
    var n := Until(lines, FileHeader);
    FileOut(name, lines[..n]) +
    if n == |lines| then [] else [File(FileName(lines[n]))] + DiffOut(lines[n + 1..], FileName(lines[n]))
  }

  /** The loop without its cap. */
  function Run(s: Scan, lines: seq<string>): Scan
    decreases |lines|
  {
    if lines == [] then s else Run(Step(s, lines[0]), lines[1..])
  }

  lemma {:induction false} RunJoin(s: Scan, a: seq<string>, b: seq<string>)
    ensures Run(s, a + b) == Run(Run(s, a), b)
    decreases |a|
  {
    if a == [] {
      assert a + b == b;
    } else {
      RunJoin(Step(s, a[0]), a[1..], b);
      assert (a + b)[1..] == a[1..] + b;
    }
  }

  predicate NoHeaders(lines: seq<string>) {
    forall i :: 0 <= i < |lines| ==> KindOf(lines[i]) != FileHeader && KindOf(lines[i]) != HunkHeader
  }

  predicate NoFiles(lines: seq<string>) {
    forall i :: 0 <= i < |lines| ==> KindOf(lines[i]) != FileHeader
  }

  /** What reading a hunk body does to the loop's variables. */
  ghost predicate BodyDone(s: Scan, body: seq<string>, s': Scan)
    requires s.shown <= HUNK_MAX_LINES
  {
    BodyShown(s, body, Take(Visible(body, s.shown > 0), HUNK_MAX_LINES - s.shown), s')
  }

  ghost predicate BodyShown(s: Scan, body: seq<string>, shown: seq<string>, s': Scan) {
    && s'.out == s.out + AsShown(shown)
    && s'.shown == s.shown + |shown|
    && s'.skipped == s.skipped + ChangedLines(body) - ChangedLines(shown)
    && s'.added == s.added + CountKind(body, Added)
    && s'.removed == s.removed + CountKind(body, Removed)
    && s'.file == s.file && s'.inHunk && s'.truncated == s.truncated
  }

  lemma {:induction false} BodyRun(s: Scan, body: seq<string>)
    requires s.inHunk && Sane(s) && NoHeaders(body)
    ensures BodyDone(s, body, Run(s, body)) && Sane(Run(s, body))
    decreases |body|
  {
    if body != [] {
      var line, rest := body[0], body[1..];
      var s' := Step(s, line);
      BodyRun(s', rest);
      BodyStep(s, line, rest, Run(s', rest));
      assert [line] + rest == body;
    } else {
      assert s.out + [] == s.out;
    }
  }

  lemma BodyStep(s: Scan, line: string, rest: seq<string>, s': Scan)
    requires s.inHunk && Sane(s) && KindOf(line) != FileHeader && KindOf(line) != HunkHeader
    requires BodyDone(Step(s, line), rest, s')
    ensures BodyDone(s, [line] + rest, s')
  {
    if s.shown < HUNK_MAX_LINES && (IsChanged(line) || (KindOf(line) == Context && s.shown > 0)) {
      BodyShows(s, line, rest, s');
    }
  }

  lemma VisibleCons(line: string, rest: seq<string>, started: bool)
    ensures Visible([line] + rest, started) ==
      if IsChanged(line) || (KindOf(line) == Context && started) then [line] + Visible(rest, true)
      else Visible(rest, started)
  {
    assert ([line] + rest)[1..] == rest;
  }

  lemma TakeCons(line: string, rest: seq<string>, m: nat)
    requires m > 0
    ensures Take([line] + rest, m) == [line] + Take(rest, m - 1)
  {
  }

  lemma StepShows(s: Scan, line: string) returns (s1: Scan)
    requires s.inHunk && s.shown < HUNK_MAX_LINES && (IsChanged(line) || (KindOf(line) == Context && s.shown > 0))
    ensures s1 == Step(s, line)
    ensures s1.out == s.out + [Shown(line)] && s1.shown == s.shown + 1 && s1.skipped == s.skipped
    ensures s1.added == s.added + if KindOf(line) == Added then 1 else 0
    ensures s1.removed == s.removed + if KindOf(line) == Removed then 1 else 0
    ensures s1.file == s.file && s1.inHunk && s1.truncated == s.truncated
  {
    s1 := Step(s, line);
  }

  lemma GrowBody(s: Scan, s1: Scan, line: string, rest: seq<string>, fewer: seq<string>, s': Scan)
    requires IsChanged(line) || KindOf(line) == Context
    requires s1.out == s.out + [Shown(line)] && s1.shown == s.shown + 1 && s1.skipped == s.skipped
    requires s1.added == s.added + if KindOf(line) == Added then 1 else 0
    requires s1.removed == s.removed + if KindOf(line) == Removed then 1 else 0
    requires s1.file == s.file && s1.truncated == s.truncated
    requires BodyShown(s1, rest, fewer, s')
    ensures BodyShown(s, [line] + rest, [line] + fewer, s')
  {
    assert s'.out == (s.out + [Shown(line)]) + AsShown(fewer);
  }

  lemma BodyShows(s: Scan, line: string, rest: seq<string>, s': Scan)
    requires s.inHunk && s.shown < HUNK_MAX_LINES && (IsChanged(line) || (KindOf(line) == Context && s.shown > 0))
    requires BodyDone(Step(s, line), rest, s')
    ensures BodyDone(s, [line] + rest, s')
  {
    var s1 := StepShows(s, line);
    var m := HUNK_MAX_LINES - s.shown;
    var fewer := Take(Visible(rest, true), m - 1);
    assert Take(Visible([line] + rest, s.shown > 0), m) == [line] + fewer by {
      VisibleCons(line, rest, s.shown > 0);
      TakeCons(line, Visible(rest, true), m);
    }
    assert BodyShown(s1, rest, fewer, s');
    GrowBody(s, s1, line, rest, fewer, s');
  }

  /** What reading whole hunks does. */
  ghost predicate HunksDone(s: Scan, lines: seq<string>, s': Scan) {
    && s'.out + s'.HunkTail() == s.out + s.HunkTail() + HunksOut(lines)
    && s'.added == s.added + CountKind(lines, Added)
    && s'.removed == s.removed + CountKind(lines, Removed)
    && s'.file == s.file
  }

  lemma OneHunk(s: Scan, header: string, body: seq<string>)
    requires Sane(s) && KindOf(header) == HunkHeader && NoHeaders(body)
    ensures var s' := Run(Step(s, header), body);
      && Sane(s') && s'.inHunk && s'.file == s.file
      && s'.out + s'.HunkTail() == s.out + s.HunkTail() + [Hunk(header)] + HunkOut(body)
      && s'.added == s.added + CountKind(body, Added) && s'.removed == s.removed + CountKind(body, Removed)
  {
    BodyRun(Step(s, header), body);
  }

  lemma {:induction false} CountJoin(a: seq<string>, b: seq<string>, kind: Kind)
    ensures CountKind(a + b, kind) == CountKind(a, kind) + CountKind(b, kind)
  {
    if a == [] {
      assert a + b == b;
    } else {
      CountJoin(a[1..], b, kind);
      assert (a + b)[1..] == a[1..] + b;
    }
  }

  lemma {:induction false} HunksRun(s: Scan, lines: seq<string>)
    requires Sane(s) && NoFiles(lines) && (lines == [] || KindOf(lines[0]) == HunkHeader)
    ensures HunksDone(s, lines, Run(s, lines)) && Sane(Run(s, lines))
    decreases |lines|
  {
    if lines == [] {
      assert s.out + s.HunkTail() + [] == s.out + s.HunkTail();
    } else {
      var body, tail := CutHunk(lines);
      var s' := Run(Step(s, lines[0]), body);
      OneHunk(s, lines[0], body);
      assert Run(s, lines) == Run(s', tail) by { RunHunk(s, lines[0], body, tail); }
      HunksRun(s', tail);
      JoinHunk(s, lines[0], body, tail, s', Run(s', tail));
    }
  }

  /** The first hunk's body and what follows it. */
  lemma CutHunk(lines: seq<string>) returns (body: seq<string>, tail: seq<string>)
    requires lines != [] && NoFiles(lines)
    ensures lines == [lines[0]] + (body + tail) && NoHeaders(body) && NoFiles(tail)
    ensures tail == [] || KindOf(tail[0]) == HunkHeader
  {
    var rest := lines[1..];
    var n := Until(rest, HunkHeader);
    body, tail := lines[1..n + 1], lines[n + 1..];
    assert rest == body + tail;
    forall i | 0 <= i < |body| ensures KindOf(body[i]) != FileHeader && KindOf(body[i]) != HunkHeader {
      assert body[i] == lines[i + 1] == rest[i];
    }
    forall i | 0 <= i < |tail| ensures KindOf(tail[i]) != FileHeader { assert tail[i] == lines[n + 1 + i]; }
    if tail != [] { assert tail[0] == rest[n]; }
  }

  lemma RunHunk(s: Scan, header: string, body: seq<string>, tail: seq<string>)
    ensures Run(s, [header] + (body + tail)) == Run(Run(Step(s, header), body), tail)
  {
    assert ([header] + (body + tail))[1..] == body + tail;
    RunJoin(Step(s, header), body, tail);
  }

  lemma JoinHunk(s: Scan, header: string, body: seq<string>, tail: seq<string>, s': Scan, last: Scan)
    requires KindOf(header) == HunkHeader && NoHeaders(body) && (tail == [] || KindOf(tail[0]) == HunkHeader)
    requires s'.out + s'.HunkTail() == s.out + s.HunkTail() + [Hunk(header)] + HunkOut(body)
    requires s'.added == s.added + CountKind(body, Added) && s'.removed == s.removed + CountKind(body, Removed)
    requires s'.file == s.file && HunksDone(s', tail, last)
    ensures HunksDone(s, [header] + (body + tail), last)
  {
    assert last.added == s.added + CountKind([header] + (body + tail), Added)
        && last.removed == s.removed + CountKind([header] + (body + tail), Removed) by {
      CountJoin(body, tail, Added);
      CountJoin(body, tail, Removed);
    }
    calc {
      last.out + last.HunkTail();
      (s.out + s.HunkTail() + [Hunk(header)] + HunkOut(body)) + HunksOut(tail);
      { ItemsJoin(s.out + s.HunkTail(), [Hunk(header)], HunkOut(body), HunksOut(tail)); }
      s.out + s.HunkTail() + ([Hunk(header)] + HunkOut(body) + HunksOut(tail));
      { HunksCons(header, body, tail); }
      s.out + s.HunkTail() + HunksOut([header] + (body + tail));
    }
  }

  lemma ItemsJoin(a: seq<Item>, b: seq<Item>, c: seq<Item>, d: seq<Item>)
    ensures (a + b + c) + d == a + (b + c + d)
  {
  }

  lemma HunksCons(header: string, body: seq<string>, tail: seq<string>)
    requires KindOf(header) == HunkHeader && NoHeaders(body) && (tail == [] || KindOf(tail[0]) == HunkHeader)
    ensures HunksOut([header] + (body + tail)) == [Hunk(header)] + HunkOut(body) + HunksOut(tail)
  {
    var lines, rest := [header] + (body + tail), body + tail;
    assert lines[0 + 1..] == rest;
    assert rest[..|body|] == body && rest[|body|..] == tail;
  }

  /** A file has just begun. */
  predicate AtFileStart(s: Scan) {
    !s.inHunk && s.skipped == 0 && s.shown == 0 && s.added == 0 && s.removed == 0
  }

  lemma {:induction false} PreambleRun(s: Scan, lines: seq<string>)
    requires AtFileStart(s) && NoHeaders(lines)
    ensures Run(s, lines) == s
    decreases |lines|
  {
    if lines != [] { PreambleRun(s, lines[1..]); }
  }

  lemma FileRun(s: Scan, lines: seq<string>)
    requires AtFileStart(s) && NoFiles(lines)
    ensures var s' := Run(s, lines);
      s'.out + s'.HunkTail() + s'.FileTail() == s.out + FileOut(s.file, lines)
    ensures Sane(Run(s, lines))
  {
    var start := Until(lines, HunkHeader);
    var preamble, hunks := lines[..start], lines[start..];
    assert lines == preamble + hunks;
    PreambleRun(s, preamble);
    RunJoin(s, preamble, hunks);
    HunksRun(s, hunks);
    HunksAfterPreamble(lines);
    FileTailIs(s, lines, hunks, Run(s, hunks));
  }

  lemma FileTailIs(s: Scan, lines: seq<string>, hunks: seq<string>, s': Scan)
    requires AtFileStart(s) && hunks == lines[Until(lines, HunkHeader)..] && HunksOut(hunks) == HunksOut(lines)
    requires HunksDone(s, hunks, s')
    ensures s'.out + s'.HunkTail() + s'.FileTail() == s.out + FileOut(s.file, lines)
  {
    assert s.out + s.HunkTail() == s.out;
    assert s'.FileTail() == StatsLine(s.file, CountKind(hunks, Added), CountKind(hunks, Removed));
    assert FileOut(s.file, lines) == HunksOut(lines) + s'.FileTail();
    TailJoin(s.out, HunksOut(hunks), s'.FileTail());
  }

  lemma TailJoin(a: seq<Item>, b: seq<Item>, c: seq<Item>)
    ensures (a + b) + c == a + (b + c)
  {
  }

  lemma HunksAfterPreamble(lines: seq<string>)
    ensures HunksOut(lines[Until(lines, HunkHeader)..]) == HunksOut(lines)
  {
    var start := Until(lines, HunkHeader);
    var hunks := lines[start..];
    if start < |lines| {
      assert Until(hunks, HunkHeader) == 0;
      assert hunks[1..] == lines[start + 1..];
    }
  }

  lemma {:induction false} DiffRun(s: Scan, lines: seq<string>)
    requires AtFileStart(s)
    ensures var s' := Run(s, lines);
      s'.out + s'.HunkTail() + s'.FileTail() == s.out + DiffOut(lines, s.file)
    decreases |lines|
  {
    var n := Until(lines, FileHeader);
    var here := lines[..n];
    FileRun(s, here);
    var s1 := Run(s, here);
    if n == |lines| {
      assert here == lines;
      assert FileOut(s.file, here) + [] == FileOut(s.file, here);
    } else {
      var s2, rest := Step(s1, lines[n]), lines[n + 1..];
      assert Run(s, lines) == Run(s2, rest) by { RunPast(s, lines, n); }
      DiffRun(s2, rest);
      DiffJoin(s.out, FileOut(s.file, here), [File(FileName(lines[n]))], DiffOut(rest, s2.file));
    }
  }

  lemma RunPast(s: Scan, lines: seq<string>, n: nat)
    requires n < |lines|
    ensures Run(s, lines) == Run(Step(Run(s, lines[..n]), lines[n]), lines[n + 1..])
  {
    assert lines == lines[..n] + lines[n..];
    RunJoin(s, lines[..n], lines[n..]);
    assert lines[n..][1..] == lines[n + 1..];
  }

  lemma DiffJoin(out: seq<Item>, a: seq<Item>, b: seq<Item>, c: seq<Item>)
    ensures ((out + a) + b) + c == out + (a + (b + c))
  {
  }

  // ----- the markers ------------------------------------------------------------------------------------------

  ghost predicate HasTruncated(items: seq<Item>) {
    exists i :: 0 <= i < |items| && items[i].Truncated?
  }

  lemma HasTruncatedJoin(a: seq<Item>, b: seq<Item>)
    ensures HasTruncated(a + b) <==> HasTruncated(a) || HasTruncated(b)
  {
    if HasTruncated(a) {
      var i :| 0 <= i < |a| && a[i].Truncated?;
      assert (a + b)[i].Truncated?;
    }
    if HasTruncated(b) {
      var i :| 0 <= i < |b| && b[i].Truncated?;
      assert (a + b)[|a| + i].Truncated?;
    }
  }

  lemma TruncatedStep(s: Scan, line: string)
    requires s.truncated <==> HasTruncated(s.out)
    ensures Step(s, line).truncated <==> HasTruncated(Step(s, line).out)
  {
    HasTruncatedJoin(s.out, s.HunkTail());
    HasTruncatedJoin(s.out + s.HunkTail(), s.FileTail());
    HasTruncatedJoin(s.out + s.HunkTail() + s.FileTail(), [File(FileName(line))]);
    HasTruncatedJoin(s.out + s.HunkTail(), [Hunk(line)]);
    HasTruncatedJoin(s.out, [Shown(line)]);
    if s.skipped > 0 { assert s.HunkTail()[0].Truncated?; }
  }

  lemma {:induction false} TruncatedRun(s: Scan, lines: seq<string>)
    requires s.truncated <==> HasTruncated(s.out)
    ensures Run(s, lines).truncated <==> HasTruncated(Run(s, lines).out)
    decreases |lines|
  {
    if lines != [] {
      TruncatedStep(s, lines[0]);
      TruncatedRun(Step(s, lines[0]), lines[1..]);
    }
  }

  // ----- the cap ----------------------------------------------------------------------------------------------

  /** The number of lines read when the output reaches the cap. */
  lemma {:induction false} CapPoint(s: Scan, lines: seq<string>) returns (n: nat)
    requires |s.out| < MAX_LINES && |Run(s, lines).out| >= MAX_LINES
    ensures 0 < n <= |lines| && |Run(s, lines[..n]).out| >= MAX_LINES && |Run(s, lines[..n - 1]).out| < MAX_LINES
    ensures var s' := Run(s, lines[..n]);
      Read(s, lines) == s'.(out := s'.out + [MoreTruncated], truncated := true)
    decreases |lines|
  {
    var s' := Step(s, lines[0]);
    if |s'.out| >= MAX_LINES {
      n := 1;
      assert lines[..1][1..] == [];
      assert lines[..0] == [];
    } else {
      var k := CapPoint(s', lines[1..]);
      n := k + 1;
      assert lines[..n][1..] == lines[1..][..k];
      assert lines[..n - 1][1..] == lines[1..][..k - 1];
    }
  }

  lemma {:induction false} ReadUncapped(s: Scan, lines: seq<string>)
    requires |Run(s, lines).out| < MAX_LINES
    ensures Read(s, lines) == Run(s, lines)
    decreases |lines|
  {
    if lines != [] {
      ReadUncapped(Step(s, lines[0]), lines[1..]);
    }
  }

  /** Below the cap the output is, item for item, the summary `DiffOut` describes: per file the exact numbers
      of added and removed hunk lines, per hunk a hundred visible lines and the number of changed lines
      left out.  The pointer to the full diff follows exactly when some hunk was truncated. */
  lemma OutputIsSummary(lines: seq<string>)
    requires |Run(START, lines).out| < 500
    ensures Output(lines) == DiffOut(lines, "") + if HasTruncated(DiffOut(lines, "")) then [SeeFullDiff] else []
  {
    var s := Run(START, lines);
    ReadUncapped(START, lines);
    DiffRun(START, lines);
    assert [] + DiffOut(lines, "") == DiffOut(lines, "");
    TruncatedRun(START, lines);
    TailsTruncated(s);
  }

  lemma TailsTruncated(s: Scan)
    requires s.truncated <==> HasTruncated(s.out)
    ensures HasTruncated(s.out + s.HunkTail() + s.FileTail()) <==> s.truncated || s.skipped > 0
  {
    HasTruncatedJoin(s.out, s.HunkTail());
    HasTruncatedJoin(s.out + s.HunkTail(), s.FileTail());
    if s.skipped > 0 { assert s.HunkTail()[0].Truncated?; }
  }

  /** At the cap the output is the summary of the lines read so far, interrupted once by the cap's marker,
      and followed by the pointer to the full diff. */
  lemma CappedOutput(lines: seq<string>) returns (n: nat, before: seq<Item>, owed: seq<Item>)
    requires |Run(START, lines).out| >= 500
    ensures 0 < n <= |lines|
    ensures before + owed == DiffOut(lines[..n], "") && 500 <= |before| <= 502
    ensures Output(lines) == before + [MoreTruncated] + owed + [SeeFullDiff]
  {
    n := CapPoint(START, lines);
    var s := Run(START, lines[..n]);
    before, owed := s.out, s.HunkTail() + s.FileTail();
    assert before + owed == DiffOut(lines[..n], "") by {
      DiffRun(START, lines[..n]);
      assert [] + DiffOut(lines[..n], "") == DiffOut(lines[..n], "");
      assert before + owed == s.out + s.HunkTail() + s.FileTail();
    }
    CapSize(lines, n);
    assert before + [MoreTruncated] + owed == before + [MoreTruncated] + s.HunkTail() + s.FileTail();
  }

  lemma CapSize(lines: seq<string>, n: nat)
    requires 0 < n <= |lines| && |Run(START, lines[..n - 1]).out| < MAX_LINES
    ensures |Run(START, lines[..n]).out| <= MAX_LINES + 2
  {
    var previous, last := lines[..n - 1], [lines[n - 1]];
    assert lines[..n] == previous + last;
    RunJoin(START, previous, last);
    assert last[1..] == [];
    RunSane(START, previous);
    StepGrowth(Run(START, previous), lines[n - 1]);
  }

  lemma {:induction false} RunSane(s: Scan, lines: seq<string>)
    requires Sane(s)
    ensures Sane(Run(s, lines))
    decreases |lines|
  {
    if lines != [] {
      StepGrowth(s, lines[0]);
      RunSane(Step(s, lines[0]), lines[1..]);
    }
  }

  // ----- reading a line ---------------------------------------------------------------------------------------------

  predicate StartsWith(line: string, prefix: string) {
    |prefix| <= |line| && forall i :: 0 <= i < |prefix| ==> line[i] == prefix[i]
  }

  /** The kinds by their first characters. */
  lemma KindExactly(line: string)
    ensures KindOf(line) == FileHeader <==> StartsWith(line, "diff --git ")
    ensures KindOf(line) == HunkHeader <==> StartsWith(line, "@@")
    ensures KindOf(line) == Added <==> StartsWith(line, "+") && !StartsWith(line, "+++")
    ensures KindOf(line) == Removed <==> StartsWith(line, "-") && !StartsWith(line, "---")
    ensures KindOf(line) == Note <==> StartsWith(line, "\\")
  {
    assert "diff --git "[0] == 'd' && "@@"[0] == '@' && "+"[0] == '+' && "-"[0] == '-' && "\\"[0] == '\\';
  }

  predicate OccursAt(s: string, sep: string, k: nat) {
    k + |sep| <= |s| && s[k..k + |sep|] == sep
  }

  lemma {:induction false} BeforeIs(s: string, sep: string, k: nat)
    requires sep != "" && OccursAt(s, sep, k) && forall i: nat :: i < k ==> !OccursAt(s, sep, i)
    ensures Before(s, sep) == k
  {
    if k == 0 {
      assert sep <= s;
    } else {
      assert OccursAt(s, sep, 0) <==> sep <= s;
      assert s[1..][k - 1..k - 1 + |sep|] == s[k..k + |sep|];
      forall i: nat | i < k - 1 ensures !OccursAt(s[1..], sep, i) {
        assert !OccursAt(s, sep, i + 1);
        if i + |sep| <= |s[1..]| { assert s[1..][i..i + |sep|] == s[i + 1..i + 1 + |sep|]; }
      }
      BeforeIs(s[1..], sep, k - 1);
    }
  }

  lemma {:induction false} BeforeNone(s: string, sep: string)
    requires sep != "" && forall i: nat :: !OccursAt(s, sep, i)
    ensures Before(s, sep) == |s|
  {
    if s != "" {
      assert OccursAt(s, sep, 0) <==> sep <= s;
      forall i: nat ensures !OccursAt(s[1..], sep, i) {
        assert !OccursAt(s, sep, i + 1);
        if i + |sep| <= |s[1..]| { assert s[1..][i..i + |sep|] == s[i + 1..i + 1 + |sep|]; }
      }
      BeforeNone(s[1..], sep);
    }
  }

  /** The first occurrence. */
  ghost predicate FirstAt(s: string, sep: string, k: nat) {
    OccursAt(s, sep, k) && forall i: nat :: i < k ==> !OccursAt(s, sep, i)
  }

  ghost predicate Nowhere(s: string, sep: string) {
    forall i: nat :: !OccursAt(s, sep, i)
  }

  /** The name of a file is what stands between the first and the second ` b/` of its header line, or to the end
      of the line; without any, it is unknown. */
  lemma FileNameExactly(line: string, k: nat, j: nat)
    ensures Nowhere(line, " b/") ==> FileName(line) == "unknown"
    ensures FirstAt(line, " b/", k) && Nowhere(line[k + 3..], " b/") ==> FileName(line) == line[k + 3..]
    ensures FirstAt(line, " b/", k) && FirstAt(line[k + 3..], " b/", j) ==> FileName(line) == line[k + 3..][..j]
  {
    if Nowhere(line, " b/") { BeforeNone(line, " b/"); }
    if FirstAt(line, " b/", k) {
      BeforeIs(line, " b/", k);
      if Nowhere(line[k + 3..], " b/") { BeforeNone(line[k + 3..], " b/"); }
      if FirstAt(line[k + 3..], " b/", j) { BeforeIs(line[k + 3..], " b/", j); }
    }
  }

  /** The lines of a hunk worth showing: each counted change, and each context line after one. */
  function Worth(body: seq<string>): seq<string> {
    if body == [] then []
    else
      var front, line := body[..|body| - 1], body[|body| - 1];
      Worth(front) +
      if IsChanged(line) || (KindOf(line) == Context && exists i :: 0 <= i < |front| && IsChanged(front[i])) then [line]
      else []
  }

  lemma {:induction false} VisibleExactly(body: seq<string>)
    ensures Visible(body, false) == Worth(body)
  {
    if body != [] {
      var front, line := body[..|body| - 1], body[|body| - 1];
      VisibleExactly(front);
      VisibleSnoc(front, line, false);
      SomeChanged(front);
      assert body == front + [line];
    }
  }

  lemma SomeChanged(s: seq<string>)
    ensures ChangedLines(s) > 0 <==> exists i :: 0 <= i < |s| && IsChanged(s[i])
  {
    MarkedSplit(s);
    CountWhereAll(s, IsChanged);
  }

  // ----- what the loop counts, and what a diff means -------------------------------------------------------------

  function CountWhere(lines: seq<string>, wanted: string -> bool): nat {
    if lines == [] then 0 else (if wanted(lines[0]) then 1 else 0) + CountWhere(lines[1..], wanted)
  }

  function MarkedLines(lines: seq<string>): nat {
    CountWhere(lines, IsMarked)
  }

  function DoubledLines(lines: seq<string>): nat {
    CountWhere(lines, IsDoubled)
  }

  /** How many lines start with this mark. */
  function Starting(lines: seq<string>, mark: string): nat {
    CountWhere(lines, line => mark <= line)
  }

  lemma CountWhereCons(line: string, rest: seq<string>, wanted: string -> bool)
    ensures CountWhere([line] + rest, wanted) == CountWhere(rest, wanted) + if wanted(line) then 1 else 0
  {
    assert ([line] + rest)[1..] == rest;
  }

  lemma {:induction false} CountWhereJoin(a: seq<string>, b: seq<string>, wanted: string -> bool)
    ensures CountWhere(a + b, wanted) == CountWhere(a, wanted) + CountWhere(b, wanted)
  {
    if a == [] {
      assert a + b == b;
    } else {
      CountWhereJoin(a[1..], b, wanted);
      assert (a + b)[1..] == a[1..] + b;
    }
  }

  lemma {:induction false} CountWhereAll(s: seq<string>, wanted: string -> bool)
    ensures CountWhere(s, wanted) <= |s|
    ensures CountWhere(s, wanted) == 0 <==> forall i :: 0 <= i < |s| ==> !wanted(s[i])
  {
    if s != [] {
      CountWhereAll(s[1..], wanted);
      assert forall i :: 0 < i < |s| ==> s[i] == s[1..][i - 1];
      assert forall i :: 0 <= i < |s| - 1 ==> s[1..][i] == s[i + 1];
    }
  }

  /** A marked line is counted or doubled, never both, and a doubled one passes for context. */
  lemma MarkedKinds(line: string)
    ensures IsMarked(line) <==> IsChanged(line) || IsDoubled(line)
    ensures IsDoubled(line) ==> KindOf(line) == Context && !IsChanged(line)
    ensures "+" <= line <==> KindOf(line) == Added || "+++" <= line
    ensures "-" <= line <==> KindOf(line) == Removed || "---" <= line
  {
    assert "diff --git "[0] == 'd' && "@@"[0] == '@' && "+++"[0] == '+' && "---"[0] == '-' && "\\"[0] == '\\';
  }

  lemma {:induction false} MarkedSplit(s: seq<string>)
    ensures MarkedLines(s) == ChangedLines(s) + DoubledLines(s)
    ensures ChangedLines(s) == CountWhere(s, IsChanged)
  {
    if s != [] {
      MarkedSplit(s[1..]);
      MarkedKinds(s[0]);
    }
  }

  lemma {:induction false} StartingSplit(s: seq<string>)
    ensures Starting(s, "+") == CountKind(s, Added) + Starting(s, "+++")
    ensures Starting(s, "-") == CountKind(s, Removed) + Starting(s, "---")
  {
    if s != [] {
      StartingSplit(s[1..]);
      MarkedKinds(s[0]);
    }
  }

  /** The counts of a file are the `+` and `-` lines of its hunks exactly when none of those is doubled. */
  lemma CountsExactly(s: seq<string>)
    ensures CountKind(s, Added) <= Starting(s, "+") && CountKind(s, Removed) <= Starting(s, "-")
    ensures CountKind(s, Added) == Starting(s, "+") && CountKind(s, Removed) == Starting(s, "-")
      <==> forall i :: 0 <= i < |s| ==> !IsDoubled(s[i])
  {
    StartingSplit(s);
    CountWhereAll(s, line => "+++" <= line);
    CountWhereAll(s, line => "---" <= line);
  }

  function StatsLine(name: string, added: nat, removed: nat): seq<Item> {
    if name != "" && (added > 0 || removed > 0) then [Stats(added, removed)] else []
  }

  /** The `+a -r` line of a named file tells the `+` and `-` lines of its hunks exactly when no hunk line is
      doubled. */
  lemma FileStatsExactly(name: string, lines: seq<string>)
    requires name != ""
    ensures var hunks := lines[Until(lines, HunkHeader)..];
      FileOut(name, lines) == HunksOut(lines) + StatsLine(name, Starting(hunks, "+"), Starting(hunks, "-"))
      <==> forall i :: 0 <= i < |hunks| ==> !IsDoubled(hunks[i])
  {
    var hunks := lines[Until(lines, HunkHeader)..];
    var told := StatsLine(name, CountKind(hunks, Added), CountKind(hunks, Removed));
    var meant := StatsLine(name, Starting(hunks, "+"), Starting(hunks, "-"));
    CountsExactly(hunks);
    assert FileOut(name, lines) == HunksOut(lines) + told;
    SameTail(HunksOut(lines), told, meant);
  }

  lemma SameTail(a: seq<Item>, b: seq<Item>, c: seq<Item>)
    ensures a + b == a + c <==> b == c
  {
    assert (a + b)[|a|..] == b && (a + c)[|a|..] == c;
  }

  /** A hunk whose only line is doubled: no line, no count, no marker tells of it. */
  lemma DoubledVanishes(name: string, header: string, line: string)
    requires KindOf(header) == HunkHeader && IsDoubled(line)
    ensures FileOut(name, [header, line]) == [Hunk(header)]
  {
    var lines, body := [header, line], [line];
    MarkedKinds(line);
    assert [line] + [] == body;
    VisibleCons(line, [], false);
    assert HunkOut(body) == [];
    assert lines == [header] + (body + []);
    HunksCons(header, body, []);
    assert lines[0..] == lines && lines[1..] == body;
  }

  /** A removed SQL comment is such a line. */
  lemma RemovedCommentVanishes()
    ensures FileOut("x.sql", ["@@ -1,2 +1 @@", "--- old comment"]) == [Hunk("@@ -1,2 +1 @@")]
  {
    var header, line := "@@ -1,2 +1 @@", "--- old comment";
    assert header[0] == '@' && header[1] == '@' && "diff --git "[0] == 'd';
    assert line[0] == '-' && line[1] == '-' && line[2] == '-';
    DoubledVanishes("x.sql", header, line);
  }

  // ----- what a hunk shows ----------------------------------------------------------------------------------------

  /** The line at `i` is among the lines a hunk shows: it is a counted change, or it passes for context and
      follows one, and no more than a hundred lines are visible up to and including it. */
  predicate IsShown(body: seq<string>, i: nat)
    requires i < |body|
  {
    && (IsChanged(body[i]) || (KindOf(body[i]) == Context && ChangedLines(body[..i]) > 0))
    && |Visible(body[..i + 1], false)| <= 100
  }

  /** In every hunk the changed lines shown and the reported number of truncated ones add up to the
      changed lines, and nothing changed is hidden while fewer than a hundred lines are shown. */
  lemma HunkConserves(body: seq<string>)
    ensures var shown := Take(Visible(body, false), 100);
      && |shown| <= 100
      && ChangedLines(shown) <= ChangedLines(body)
      && (ChangedLines(shown) < ChangedLines(body) ==> |shown| == 100)
  {
    var visible := Visible(body, false);
    VisibleKeepsChanged(body, false);
    if |visible| > 100 {
      var a, b := visible[..100], visible[100..];
      assert visible == a + b;
      CountJoin(a, b, Added);
      CountJoin(a, b, Removed);
    }
  }

  lemma {:induction false} VisibleSnoc(front: seq<string>, line: string, started: bool)
    ensures Visible(front + [line], started) == Visible(front, started) +
      if IsChanged(line) || (KindOf(line) == Context && (started || ChangedLines(front) > 0)) then [line] else []
  {
    if front == [] {
      assert front + [line] == [line] + [];
      VisibleCons(line, [], started);
    } else {
      var head, rest := front[0], front[1..];
      assert front == [head] + rest;
      assert front + [line] == [head] + (rest + [line]);
      VisibleCons(head, rest + [line], started);
      VisibleCons(head, rest, started);
      VisibleSnoc(rest, line, started || IsChanged(head));
    }
  }

  /** Of the doubled lines of a hunk, exactly those that `IsShown` describes are shown. */
  lemma {:induction false} DoubledShown(body: seq<string>)
    ensures DoubledLines(Take(Visible(body, false), HUNK_MAX_LINES)) <= DoubledLines(body)
    ensures DoubledLines(Take(Visible(body, false), HUNK_MAX_LINES)) == DoubledLines(body)
      <==> forall i :: 0 <= i < |body| && IsDoubled(body[i]) ==> IsShown(body, i)
  {
    if body != [] {
      var front, line := body[..|body| - 1], body[|body| - 1];
      assert body == front + [line];
      DoubledShown(front);
      DoubledStep(front, line);
      assert forall i :: 0 <= i < |front| ==> body[i] == front[i];
      forall i | 0 <= i < |front| ensures IsShown(body, i) <==> IsShown(front, i) {
        assert body[..i] == front[..i] && body[..i + 1] == front[..i + 1];
      }
      if forall i :: 0 <= i < |body| && IsDoubled(body[i]) ==> IsShown(body, i) {
        assert forall i :: 0 <= i < |front| && IsDoubled(front[i]) ==> IsShown(front, i);
      }
    }
  }

  lemma TakeSnoc(v: seq<string>, extra: seq<string>, m: nat, wanted: string -> bool)
    requires |extra| <= 1
    ensures CountWhere(Take(v + extra, m), wanted)
      == CountWhere(Take(v, m), wanted) + if |v| < m then CountWhere(extra, wanted) else 0
  {
    if |v| < m {
      CountWhereJoin(v, extra, wanted);
    } else {
      assert (v + extra)[..m] == v[..m];
      assert v[..|v|] == v && (v + extra)[..|v|] == v;
      if extra == [] { assert v + extra == v; }
    }
  }

  lemma DoubledStep(front: seq<string>, line: string)
    ensures var body := front + [line];
      && DoubledLines(body) == DoubledLines(front) + (if IsDoubled(line) then 1 else 0)
      && DoubledLines(Take(Visible(body, false), HUNK_MAX_LINES))
         == DoubledLines(Take(Visible(front, false), HUNK_MAX_LINES))
            + if IsDoubled(line) && IsShown(body, |front|) then 1 else 0
  {
    var v, seen := Visible(front, false), IsChanged(line) || (KindOf(line) == Context && ChangedLines(front) > 0);
    var extra := if seen then [line] else [];
    CountWhereJoin(front, [line], IsDoubled);
    assert CountWhere([line], IsDoubled) == (if IsDoubled(line) then 1 else 0) by {
      CountWhereCons(line, [], IsDoubled);
      assert [line] + [] == [line];
    }
    VisibleSnoc(front, line, false);
    assert Visible(front + [line], false) == v + extra;
    TakeSnoc(v, extra, HUNK_MAX_LINES, IsDoubled);
    ShownLast(front, line, seen, v, extra);
  }

  lemma ShownLast(front: seq<string>, line: string, seen: bool, v: seq<string>, extra: seq<string>)
    requires Visible(front + [line], false) == v + extra && extra == if seen then [line] else []
    requires seen == (IsChanged(line) || (KindOf(line) == Context && ChangedLines(front) > 0))
    ensures IsShown(front + [line], |front|) <==> seen && |v| < HUNK_MAX_LINES
  {
    var body := front + [line];
    assert body[..|front|] == front && body[..|front| + 1] == body;
  }

  /** The same over the lines a diff means: shown and reported ones fall short of a hunk's marked lines by the
      doubled lines not shown, so the account balances exactly when every doubled line is shown. */
  lemma HunkBalance(body: seq<string>)
    ensures var shown := Take(Visible(body, false), 100);
      var reported := ChangedLines(body) - ChangedLines(shown);
      && MarkedLines(shown) + reported + (DoubledLines(body) - DoubledLines(shown)) == MarkedLines(body)
      && (MarkedLines(shown) + reported == MarkedLines(body)
          <==> forall i :: 0 <= i < |body| && IsDoubled(body[i]) ==> IsShown(body, i))
  {
    MarkedSplit(body);
    MarkedSplit(Take(Visible(body, false), 100));
    DoubledShown(body);
  }

  lemma {:induction false} VisibleKeepsChanged(body: seq<string>, started: bool)
    ensures ChangedLines(Visible(body, started)) == ChangedLines(body)
  {
    if body != [] {
      var line, rest := body[0], body[1..];
      assert body == [line] + rest;
      VisibleKeepsChanged(rest, true);
      VisibleKeepsChanged(rest, started);
    }
  }

  /** How many lines of the hunk are visible up to and including the k-th wanted one among them. */
  function Through(body: seq<string>, k: nat, started: bool, wanted: string -> bool): nat {
    if k == 0 || body == [] then 0
    else if IsChanged(body[0]) || (KindOf(body[0]) == Context && started) then
      1 + Through(body[1..], if wanted(body[0]) then k - 1 else k, true, wanted)
    else Through(body[1..], k, started, wanted)
  }

  /** The first `m` visible lines hold `k` wanted ones exactly when the k-th is among them. */
  lemma {:induction false} ShowsThrough(body: seq<string>, k: nat, m: nat, started: bool, wanted: string -> bool)
    requires k <= CountWhere(Visible(body, started), wanted)
    ensures CountWhere(Take(Visible(body, started), m), wanted) >= k <==> Through(body, k, started, wanted) <= m
    decreases |body|
  {
    if k > 0 {
      var line, rest := body[0], body[1..];
      assert body == [line] + rest;
      VisibleCons(line, rest, started);
      if IsChanged(line) || (KindOf(line) == Context && started) {
        CountWhereCons(line, Visible(rest, true), wanted);
        if m == 0 {
        } else {
          TakeCons(line, Visible(rest, true), m);
          CountWhereCons(line, Take(Visible(rest, true), m - 1), wanted);
          ShowsThrough(rest, if wanted(line) then k - 1 else k, m - 1, true, wanted);
        }
      } else {
        ShowsThrough(rest, k, m, started, wanted);
      }
    }
  }

  /** How many lines come before the first counted change. */
  function Lead(body: seq<string>): (n: nat)
    ensures n <= |body|
  {
    if body == [] || IsChanged(body[0]) then 0 else 1 + Lead(body[1..])
  }

  /** The marked lines that are not visible are the doubled ones before the first counted change. */
  lemma {:induction false} VisibleMarked(body: seq<string>, started: bool)
    ensures MarkedLines(Visible(body, started)) + (if started then 0 else DoubledLines(body[..Lead(body)]))
         == MarkedLines(body)
  {
    if body == [] {
      assert body[..Lead(body)] == [];
    } else {
      var line, rest := body[0], body[1..];
      assert body == [line] + rest;
      MarkedKinds(line);
      VisibleCons(line, rest, started);
      CountWhereCons(line, rest, IsMarked);
      CountWhereCons(line, Visible(rest, true), IsMarked);
      VisibleMarked(rest, started || IsChanged(line));
      if IsChanged(line) {
        assert body[..Lead(body)] == [];
      } else {
        assert body[..Lead(body)] == [line] + rest[..Lead(rest)];
        CountWhereCons(line, rest[..Lead(rest)], IsDoubled);
      }
    }
  }

  function AtMostHundred(n: nat): nat {
    if n < 100 then n else 100
  }

  lemma {:induction false} TakeCounts(s: seq<string>, m: nat, wanted: string -> bool)
    ensures CountWhere(Take(s, m), wanted) <= CountWhere(s, wanted) && CountWhere(Take(s, m), wanted) <= m
  {
    CountWhereAll(Take(s, m), wanted);
    if |s| > m {
      assert s == s[..m] + s[m..];
      CountWhereJoin(s[..m], s[m..], wanted);
    }
  }

  /** The cap is documented as a hundred changed lines.  Context uses it up as well, and doubled lines before
      the first counted change are not shown at all: with k = min(100, marked lines), a hunk shows k marked
      lines exactly when k marked lines remain without those, and no more than a hundred lines are visible up
      to and including the k-th. */
  lemma HunkCapExactly(body: seq<string>)
    ensures var marked := MarkedLines(body);
      var k := AtMostHundred(marked);
      MarkedLines(Take(Visible(body, false), 100)) == k <==>
        k + DoubledLines(body[..Lead(body)]) <= marked && Through(body, k, false, IsMarked) <= 100
  {
    var k := AtMostHundred(MarkedLines(body));
    VisibleMarked(body, false);
    TakeCounts(Visible(body, false), 100, IsMarked);
    if k <= MarkedLines(Visible(body, false)) { ShowsThrough(body, k, 100, false, IsMarked); }
  }

  /** The same for the lines the loop counts, of which none is lost before the first. */
  lemma CountedCapExactly(body: seq<string>)
    ensures var k := AtMostHundred(ChangedLines(body));
      ChangedLines(Take(Visible(body, false), 100)) == k <==>
        Through(body, k, false, IsChanged) <= 100
  {
    var visible := Visible(body, false);
    VisibleKeepsChanged(body, false);
    MarkedSplit(visible);
    MarkedSplit(Take(visible, 100));
    TakeCounts(visible, 100, IsChanged);
    ShowsThrough(body, AtMostHundred(ChangedLines(body)), 100, false, IsChanged);
  }

  function ContextLines(n: nat): (r: seq<string>)
    ensures |r| == n && forall i :: 0 <= i < n ==> r[i] == " "
  {
    if n == 0 then [] else [" "] + ContextLines(n - 1)
  }

  lemma {:induction false} ThroughContext(n: nat, tail: seq<string>)
    ensures Through(ContextLines(n) + tail, 1, true, IsMarked) == n + Through(tail, 1, true, IsMarked)
    ensures MarkedLines(ContextLines(n) + tail) == MarkedLines(tail)
  {
    if n == 0 {
      assert ContextLines(0) + tail == tail;
    } else {
      var rest := ContextLines(n - 1) + tail;
      assert ContextLines(n) + tail == [" "] + rest;
      assert KindOf(" ") == Context && !IsMarked(" ") by {
        assert " "[0] != "+"[0] && " "[0] != "-"[0] && " "[0] != "\\"[0];
      }
      ThroughContext(n - 1, tail);
      CountWhereCons(" ", rest, IsMarked);
      assert ([" "] + rest)[1..] == rest;
    }
  }

  /** Two changed lines with `n` context lines between them: the second one is hidden from n = 99 on. */
  lemma ContextUsesCap(n: nat)
    ensures var body := ["+"] + (ContextLines(n) + ["-"]);
      MarkedLines(body) == 2 && MarkedLines(Take(Visible(body, false), 100)) == if n >= 99 then 1 else 2
  {
    var tail := ContextLines(n) + ["-"];
    var body := ["+"] + tail;
    ThroughContext(n, ["-"]);
    assert ["-"] == ["-"] + [] && ["-"][1..] == [];
    CountWhereCons("-", [], IsMarked);
    CountWhereCons("+", tail, IsMarked);
    assert body[1..] == tail;
    assert body[..Lead(body)] == [];
    VisibleMarked(body, false);
    TakeCounts(Visible(body, false), 100, IsMarked);
    ShowsThrough(body, 1, 100, false, IsMarked);
    ShowsThrough(body, 2, 100, false, IsMarked);
  }
}
