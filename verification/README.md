# OMRP verification model

OMRP routes LLM requests. Everything it knows about a model is folded from an event log; the log is kept
in a hash-chained ledger; routing ranks the models by a score computed from that state. Around this
kernel a web server guards logins, keeps a table and a pool of outbound proxies, rotates requests through
the pool, and compresses tool output before it is sent on. This project models those parts and proves what
holds of them over every input, every run and every reachable state.

| module | models |
|---|---|
| `Types` | models, requests, decisions, the fourteen event kinds, event validation |
| `Reals` | a few facts about products and quotients |
| `Health`, `Stability` | Wilson bound, garbage test, Beta variance, stability score |
| `Reducers` | the state and `dispatch`, in place and on snapshots |
| `ModelRuns`, `GarbageRuns`, `Averages`, `StateRuns` | whole event logs: seen from one model, the running averages, the rest of the state |
| `Sorting`, `Scorer`, `Router` | sort, score, selection, tier restriction, fallback, Thompson selection |
| `Ledger`, `Pipeline` | hash chain, JSON Lines file, event pipeline, restart, bootstrap |
| `Xorshift` | the generator behind Thompson selection |
| `LoginGuard` | failed-login table and login handler |
| `ProxyStore`, `ProxyServer`, `Replies`, `Rotation` | proxy rows, in-memory pool, admin handlers, attempt loops, what each answer does, round robin |
| `GitDiff`, `Compressor`, `Rewriting` | diff compactor, request-body compression, its accounting, and which strings it touches |

Code that changes state step by step is a class or a method with the source's fields, loops and branches,
and each method is proved equal to a function on snapshots (`Reducers.Apply`, `ProxyServer.Handled`,
`LoginGuard.Serve`, `GitDiff.Output`, ...). Claims about runs are lemmas about those functions.

## How to read the statements

- f32 and f64 are exact reals. `sqrt` is a parameter `root` of which only `IsSqrt` is assumed.
- u64 and u32 counters are natural numbers: their saturation, overflow and wrap-around are not modelled.
- The hash, the event encoder, the printer and parser of one ledger line, the compression filters with
  their detection, lower-casing, password checking, provider replies, random draws and the clock are
  parameters. What a claim needs of them is a hypothesis of that claim, and speaks only of the events or
  entries at hand (`TellsApart`, `PrintsThese`): not every f64 score need survive printing and parsing, as
  serde_json is used without exact float round trips. Collision freedom is not assumed: the chain claims
  end in "equal, or the two entries at this index collide".
- A web handler is one atomic step.

## Where code and documentation differ

The model follows the code. Each difference is proved, in most cases with the exact condition.

- The Wilson bound: one more success never lowers it, except that the first observation takes it down
  from the neutral 0.5 (`Health.SuccessRaisesBound`). `docs/ROUTING.md` says that a bad run with few
  observations stays near 0.5; without a success the bound is 0 (`Health.WilsonAtMostMean`).
- "Last event was a failure" (`docs/ROUTING.md`, comment in `is_garbage`): the timestamps compared come
  from a clock that probes and reports do not move, so a failure at the instant of the last success does
  not count (`GarbageRuns.GarbageExactly`), and the flag depends on whether events of other models moved
  the clock in between (`GarbageRuns.FlagDependsOnOthers`).
- Recovery is documented as waiting for the bound to climb above 0.15; one success re-admits at once,
  except exactly when the counts stay under the threshold and a restart since the last failure has put
  the clock back behind it (`GarbageRuns.SuccessReadmitsExactly`; `GarbageRuns.RestartKeepsFlag` is such
  a run).
- The maximal score is documented as 1.40; it is exceeded exactly for latency averages strictly between
  0 and 500 ms, and stays under 1.4 + 1/95 (`Scorer.DocumentedMaximum`, `Scorer.ScoreRange`). Runs of
  good probes get there for every measured latency under 500 ms (`Router.DocumentedMaximumExceeded`).
- `StabilityScore` is commented as normalised by the largest deviation 0.5 of the uniform distribution; a
  Beta posterior starts at variance 1/12 and never exceeds it (`Stability.VarianceBound`).
- `select_for_tier` ignores the tier when its best model has the empty string as id and is not already the
  whole ranking (`Router.TierPromise`; `Router.TierIgnoredInRun` is such a run).
- The ledger's "strictly increasing by seq" is not checked when a file is loaded; an accepted chain has it
  exactly when its payloads do (`Ledger.IncreasingExactly`, `Ledger.NumbersNotVerified`).
- "Five failures within the window": five of them always lock, but each failure is compared only with the
  one before it, so a streak of five may span four windows and still lock. A locked name is one the
  documentation would lock exactly when its last five failures lie within a window
  (`LoginGuard.DocumentedLockExactly`, `LoginGuard.StreakSpan`, `LoginGuard.SlowFailuresLock`).
- "Tampering anywhere detectable" (`docs/ARCHITECTURE.md`): an altered file is refused exactly when its
  entries are not the sealing of their own payloads (`Ledger.AlterationRefusedExactly`). Cutting off the
  end is accepted (`Ledger.CutAccepted`), and so is any change whose checksums are recomputed
  (`Ledger.OneChainPerPayload`); an edit under the old checksum is refused, short of a collision
  (`Ledger.EditRefused`), and a chain that keeps its length and last checksum is unaltered, short of a
  collision (`Ledger.TamperEvident`).
- "Sequential retry without repeating": a proxy dropped after a kept one shifts the pool under the fixed
  cursor, and the next retry can land on a proxy already tried (`Rotation.FreshProxiesExactly` over all
  cursors, `Rotation.FreshAtCursorExactly` for one).
- With bypass "the user's real IP never reaches the LLM provider" (`docs/WEB.md`, README of the
  repository): a request with bypass goes direct exactly when it finds the pool empty
  (`ProxyServer.DirectExactly`), and one broken connection can empty it while the table still holds the
  proxy as active (`ProxyServer.BypassGoesDirect`).
- "Each request uses a different proxy IP" (`docs/WEB.md`): without drops, the next request starts from
  the same proxy exactly when this one was not served, or went through the whole pool first
  (`Rotation.SameProxyAgain`).
- Added and removed lines: inside a hunk too the compactor takes lines starting with `+++` or `---` for
  file header lines, so a removed `-- comment` or an added `++x` is not counted. The `+a -r` line of a
  file tells its `+` and `-` hunk lines exactly when none of them is doubled like that
  (`GitDiff.FileStatsExactly`); in a hunk, the lines shown and the reported ones fall short of the marked
  lines by the doubled ones not shown, and `GitDiff.HunkBalance` says which those are. One can vanish
  without a trace (`GitDiff.RemovedCommentVanishes`).
- "Each hunk is capped at 100 changed lines": context lines use up the cap too, and doubled lines before
  the first counted change are never shown. With k = min(100, `+` and `-` lines), a hunk shows k of them
  exactly when k remain without those, and at most 100 lines are visible up to and including the k-th;
  one can be hidden in a hunk that has only two (`GitDiff.HunkCapExactly`, `GitDiff.ContextUsesCap`).
- A file whose header has nothing after ` b/` gets no `+a -r` line (`GitDiff.OutputIsSummary`).
- `compress_messages` is documented to return nothing when no compressible content was found; it does so
  only when disabled or without a message array (`Compressor.CompressMessages`).

## Model

| member | source | states |
|---|---|---|
| `Health.WilsonBelow` | crates/omrp-core/src/state.rs:70-81 | With data, and for every threshold t in (0,1), the bound is below t iff s < tn or (s - tn)^2 < 1.96^2 t(1-t)n: no square root left |
| `Health.GarbageIsPolynomial` | crates/omrp-core/src/reducers.rs:33-43 | The garbage test through the Wilson formula is that polynomial test, for any square root function |
| `Health.GarbageInNumbers` | crates/omrp-core/src/reducers.rs:33-43 | The garbage test in plain numbers: five observations, s below 15% of n or (100s - 15n)^2 < 4898.04n, and the last failure stamped later than the last success |
| `Health.WilsonAtMostMean` | crates/omrp-core/src/state.rs:70-81 | With data the bound lies between 0 and s/n |
| `Health.ClampNeverActs` | crates/omrp-core/src/state.rs:77-80 | The fraction handed to the clamp is already in [0,1] |
| `Health.SuccessRaisesBound` | crates/omrp-core/src/state.rs:70-81 | One more success does not lower the bound iff there was an observation before |
| `Health.FailureLowersBound` | crates/omrp-core/src/state.rs:70-81 | One more failure never raises the bound |
| `Stability.VarianceBound` | crates/omrp-core/src/state.rs:85-90 | The Beta variance is positive and at most 1/12, reached without data |
| `Stability.StabilityForm` | crates/omrp-core/src/state.rs:94-98 | The deviation lies in (0, 1/2), so the clamp never acts and the stability score lies in (0,1) |
| `Stability.SpreadGrowth` | crates/omrp-core/src/state.rs:85-98 | For a Beta posterior (a,b) with n = a+b, and u, v its deviations after and before one success, scaled by n+1 and n: nu - (n+1)v < b |
| `Stability.SuccessPays` | crates/omrp-core/src/scorer.rs:67-76 | For all counts a success gains more weighted competence than it can lose in weighted stability |
| `Types.ValidExactly` | crates/omrp-events/src/validate.rs:34-156 | Exactly which events may enter the pipeline, kind by kind: required texts with some ink, scores not negative, probe health in [0,1], positive latencies and token counts |
| `Types.AsciiWhitespace` | crates/omrp-events/src/validate.rs:34-156 | Among ASCII characters exactly space and the five control characters 9 to 13 are trimmed |
| `Reducers.Recheck` | crates/omrp-core/src/reducers.rs:36-43 | Recomputing the flag sets it to the polynomial test and changes nothing else |
| `Reducers.State.Dispatch` | crates/omrp-core/src/reducers.rs:49-174 | Dispatching in place is exactly the snapshot transition, for all fourteen event kinds |
| `Reducers.State.OnCompletionFinished` | crates/omrp-core/src/reducers.rs:85-107 | The same for a finished completion: health, ratio, saturating in-flight count, both counters |
| `Reducers.State.OnModelFailed` | crates/omrp-core/src/reducers.rs:109-118 | The same for a failure outside a completion |
| `Reducers.State.OnProbeUpdated` | crates/omrp-core/src/reducers.rs:120-129 | The same for a good probe: window 10, ratio and clock untouched |
| `Reducers.State.OnProbeFailed` | crates/omrp-core/src/reducers.rs:131-138 | The same for a bad probe |
| `Reducers.State.OnReportReceived` | crates/omrp-core/src/reducers.rs:153-168 | The same for a user report: the clock stands still |
| `Reducers.State.constructor` | crates/omrp-core/src/state.rs:116-124 | A new state is the empty one |
| `Reducers.WithoutIsRetain` | crates/omrp-core/src/reducers.rs:65-69 | Removal leaves exactly the models with another id, and keeps ids distinct |
| `Reducers.AverageBounds` | crates/omrp-core/src/reducers.rs:20-22 | The windowed average stays between 0 and the larger of old average and new value |
| `Averages.AveragesMove` | crates/omrp-core/src/reducers.rs:10-22 | One event moves the latency average a tenth (probe) or a twentieth (completion, report) of the way to the measured latency, the success ratio a tenth of the way to 1 or 0, and otherwise neither |
| `Averages.ProbesReach` | crates/omrp-core/src/reducers.rs:120-129 | After n probes of latency x a new model has average x(1 - 0.9^n) and ratio 1/2 |
| `Averages.SuccessesReach` | crates/omrp-core/src/reducers.rs:85-99 | After n successful completions of latency x: average x(1 - 0.95^n), ratio 1 - 0.9^n/2 |
| `Averages.FailuresReach` | crates/omrp-core/src/reducers.rs:85-99 | After n failed completions: average 0, ratio 0.9^n/2 |
| `StateRuns.CountersCount` | crates/omrp-core/src/reducers.rs:51-151 | In every run the four counters are the numbers of completions, failures, fallbacks and degradations since the daemon last started |
| `StateRuns.CacheRemembers` | crates/omrp-core/src/reducers.rs:71-147 | In every run the cache holds the last selection and the last fallback, each with the clock as it stood then |
| `StateRuns.NewModel` | crates/omrp-core/src/state.rs:36-46 | A model just added has no observations, an even ratio, no latency, epoch stamps, no flag and nothing in flight |
| `Reducers.ApplyKeepsConsistent` | crates/omrp-core/src/reducers.rs:49-174 | Every event keeps the state invariant |
| `Reducers.ReachableConsistent` | crates/omrp-core/src/reducers.rs:49-174 | In every reachable state ids are distinct, health keys are the model ids, in-flight keys include them, the flag equals the garbage test of the stored fields, the ratio is in [0,1], the latency average is not negative |
| `ModelRuns.TrackReplay` | crates/omrp-core/src/reducers.rs:49-174 | Replaying a log and projecting to one model is running a small per-model machine |
| `ModelRuns.Noninterference` | crates/omrp-core/src/reducers.rs:49-174 | Counts, ratio, latency average and in-flight count of a model are those of the log cut down to the events naming it |
| `ModelRuns.TimedNoninterference` | crates/omrp-core/src/reducers.rs:49-174 | Keeping also the events that move or reset the clock, timestamps and flag come out the same too |
| `ModelRuns.CountsAreObservations` | crates/omrp-core/src/reducers.rs:85-168 | A model is registered iff it was added and not removed since, and its counts are the successes and failures observed since it was last added |
| `ModelRuns.InflightIsReflection` | crates/omrp-core/src/reducers.rs:55-102 | The in-flight count is the maximum over all suffixes, since the last effective add or removal, of requests started minus completions finished |
| `GarbageRuns.Stamps` | crates/omrp-core/src/state.rs:126-132 | In every run, restarts included, the two timestamps of a registered model are the clock readings at its last success and its last failure since it was added |
| `GarbageRuns.GarbageInAnyRun` | crates/omrp-core/src/reducers.rs:36-168 | In every run a model is garbage iff it has five observations, the polynomial test holds, and the clock stood further at its last failure than at its last success |
| `GarbageRuns.GarbageExactly` | crates/omrp-core/src/reducers.rs:36-168 | Without a restart a model is garbage iff it has five observations, the polynomial test holds, its last observation failed, and some event moved the clock since its last success |
| `GarbageRuns.FailuresExclude` | crates/omrp-core/src/reducers.rs:109-118 | After s successes, 6s+5 ModelFailed events without a success make the model garbage, whatever happens in between |
| `GarbageRuns.SuccessReadmitsExactly` | crates/omrp-core/src/reducers.rs:51-168 | In every run a success leaves the flag set iff the counts stay under the threshold and the daemon restarted after the last failure, with fewer clock ticks since than the clock read at that failure |
| `GarbageRuns.RestartKeepsFlag` | crates/omrp-core/src/reducers.rs:51-129 | Such a run: n failures, a restart and a good probe leave the model garbage iff n >= 4 |
| `GarbageRuns.SuccessReadmits` | crates/omrp-core/src/reducers.rs:85-168 | Without a restart any success clears the flag at once |
| `GarbageRuns.LatencyWithinSeen` | crates/omrp-core/src/reducers.rs:88-91 | The latency average lies between 0 and the largest latency of a success since the model was added |
| `GarbageRuns.FlagDependsOnOthers` | crates/omrp-core/src/reducers.rs:109-138 | After one good and n >= 4 bad probes, with any events not naming the model in between, it is garbage iff those have moved the clock; without a restart among them, iff one of them ticks |
| `Sorting.Sort` | crates/omrp-core/src/router.rs:45-50 | The insertion loop computes `SortBy` |
| `Sorting.SortPermutes` | crates/omrp-core/src/router.rs:45-50 | The result is a permutation |
| `Sorting.SortOrders` | crates/omrp-core/src/router.rs:45-50 | The result is ordered, for any strict weak order |
| `Sorting.OrderIsUnique` | crates/omrp-core/src/router.rs:45-50 | Two strictly ordered sequences with the same elements are equal |
| `Sorting.LexTotal` | crates/omrp-core/src/router.rs:49 | The tie-break on ids is total, antisymmetric and irreflexive |
| `Sorting.LexTransitive` | crates/omrp-core/src/router.rs:49 | The tie-break on ids is transitive |
| `Sorting.LexFirstDifference` | crates/omrp-core/src/router.rs:49 | Ids compare by their first difference, and a proper prefix comes first |
| `Scorer.ScoreRange` | crates/omrp-core/src/scorer.rs:49-128 | Under the default weights 0 < score < 1.4 + 1/95, and < 1.4 when the latency is unmeasured or at least 500 ms |
| `Scorer.DocumentedMaximum` | crates/omrp-core/src/scorer.rs:49-128 | No model with that latency average exceeds 1.40 iff the average is <= 0 or >= 500 |
| `Scorer.SuccessRaisesScore` | crates/omrp-core/src/scorer.rs:49-87 | One more recorded success, all else equal, strictly raises the score, for all counts |
| `Scorer.BusierScoresLower` | crates/omrp-core/src/scorer.rs:105-108 | More requests in flight never raise the score, and lower it iff capacity was left |
| `Scorer.SlowerScoresLower` | crates/omrp-core/src/scorer.rs:97-103 | A higher latency average scores no higher, iff the lower one was measured, or the higher one is unmeasured or at least 5250 ms |
| `Scorer.SimpleFactors` | crates/omrp-core/src/scorer.rs:89-108 | Health is 0, 1/2 or 1; latency falls linearly from 500 ms to 10 s and is 1/2 unmeasured; load is the share of free capacity, of three requests by default |
| `Scorer.PosteriorFactors` | crates/omrp-core/src/state.rs:62-98 | (s+f+2) times the competence is s+1; the stability falls short of 1 by twice a number whose square is (s+1)(f+1)/((s+f+2)^2(s+f+3)) |
| `Scorer.BonusInHundredths` | crates/omrp-core/src/scorer.rs:110-127 | The bonus is 15, 10, 10 and 5 hundredths for task, vision, tools and context |
| `Scorer.ScoreInHundredths` | crates/omrp-core/src/scorer.rs:21-87 | The default score weighs health, latency, competence, stability and load by 35, 20, 25, 10 and 10 hundredths and adds the bonus; the factors are listed in that order |
| `Router.RouterEngine.Select` | crates/omrp-core/src/router.rs:29-53 | In a consistent state the returned decision lists each non-garbage model once with its score and factors, best first by total then id; its selection, score and reasoning are those of the first; none is better |
| `Router.RouterEngine.SelectThompson` | crates/omrp-core/src/router.rs:64-112 | The same by the sampled totals, with one draw per available model in registration order |
| `Router.RouterEngine.FallbackChain` | crates/omrp-core/src/router.rs:146-153 | The chain of the selection without one id |
| `Router.RouterEngine.SelectForTier` | crates/omrp-runtime/src/routing.rs:69-87 | The restricted decision if it selects something, else the unrestricted one |
| `Router.RankingExactly` | crates/omrp-core/src/router.rs:29-53 | A sequence is the router's ranking iff it is strictly ordered by score descending then id ascending and holds exactly the rated non-garbage models |
| `Router.OrderIndependent` | crates/omrp-core/src/router.rs:29-53 | States whose model lists are permutations, with the same health, in-flight counts and clock, give the same decision |
| `Router.ChainMembership` | crates/omrp-core/src/router.rs:114-143 | The chain lists each registered non-garbage model once and nothing else |
| `Router.SelectDecides` | crates/omrp-core/src/router.rs:114-143 | That statement for every consistent state and request, without naming how the decision is built |
| `Router.RestrictionCommutes` | crates/omrp-runtime/src/routing.rs:77-80 | Restricting the models and ranking is ranking and restricting, for any predicate on ids |
| `Router.TierExactly` | crates/omrp-runtime/src/routing.rs:69-87 | Tier selection yields the full ranking filtered to the tier, unless that is empty or headed by the empty id; then the full decision |
| `Router.TierDecides` | crates/omrp-runtime/src/routing.rs:69-87 | Tier selection is the decision over the non-garbage models of the tier, unless that selects nothing or the empty id; then the decision over all |
| `Router.TierPromise` | crates/omrp-runtime/src/routing.rs:67-87 | When the tier has available models, its share of the ranking is what is used iff its head has a non-empty id or it is the whole ranking |
| `Router.TierIgnored` | crates/omrp-runtime/src/routing.rs:79-84 | Whenever a model under the empty id and another one are available, the tier of the first is non-empty and its share is not what is used |
| `Router.TierIgnoredInRun` | crates/omrp-runtime/src/routing.rs:79-84 | Registering those two models reaches such a state |
| `Router.TierSelectsSomething` | crates/omrp-runtime/src/routing.rs:69-87 | Without an empty id, the selected model is empty iff every registered model is garbage |
| `Router.FallbackIsRemoval` | crates/omrp-core/src/router.rs:146-153 | The fallback chain after a failure is the chain selected if that model were removed by an event |
| `Router.ThompsonPermutes` | crates/omrp-core/src/router.rs:64-112 | Whatever the draws, the Thompson chain is a permutation of the deterministic one |
| `Router.ThompsonDecides` | crates/omrp-core/src/router.rs:73-111 | Thompson selection is the decision by 0.7 of the model's own draw, 0.2 of its free capacity and 0.015 for suiting the request's task; the draw is numbered by the usable models registered before it |
| `Router.SelectionValidates` | crates/omrp-events/src/validate.rs:67-77 | The score of any decision lies in [0, 1.4 + 1/95), so recording the selection passes validation |
| `Router.DocumentedMaximumExceeded` | crates/omrp-core/src/scorer.rs:49-128 | For every measured latency under 500 ms some run of valid events, one add and good probes, ends in a selection scored above 1.40 |
| `Router.FailuresExcludeFromChain` | crates/omrp-core/src/router.rs:33-36 | After 6s+5 failures without a success a model is in no request's chain |
| `Router.SuccessReturnsToChain` | crates/omrp-core/src/router.rs:33-36 | After any one success it is back in every request's chain |
| `Ledger.PreimageInjective` | crates/omrp-core/src/ledger.rs:95-109 | The framing of previous checksum, two 8-byte little-endian numbers and event bytes is injective, for two events the encoder tells apart |
| `Ledger.PreimageLayout` | crates/omrp-core/src/ledger.rs:95-109 | Bytes 0-31 are the previous checksum, 32-39 the number and 40-47 the logical time, least significant byte first, then the event |
| `Ledger.VerifyChain` | crates/omrp-core/src/ledger.rs:82-92 | The loop accepts exactly the chains in which every checksum hashes its entry with the checksum before |
| `Ledger.TamperEvident` | crates/omrp-core/src/ledger.rs:82-92 | Accepted chains of equal length and equal last checksum are equal, or at some index the preimages of their two entries differ and hash alike |
| `Ledger.TamperEvidentNumbered` | crates/omrp-core/src/ledger.rs:143-153 | For chains numbered from 1 the lengths need not be compared: equal, or an entry of one and an entry of the other collide in this way |
| `Ledger.OneChainPerPayload` | crates/omrp-core/src/ledger.rs:82-92 | For any payloads exactly one accepted chain carries them |
| `Ledger.IncreasingExactly` | crates/omrp-core/src/ledger.rs:149-152 | Any payloads form an accepted chain, which has increasing numbers iff the payloads do |
| `Ledger.NumbersNotVerified` | crates/omrp-core/src/ledger.rs:149-152 | Two entries numbered 1 pass verification |
| `Ledger.ChainIsAccepted` | crates/omrp-core/src/ledger.rs:171-178 | Every sequence of appends yields an accepted chain of those events, with number i+1 at index i |
| `Ledger.LedgerStore.constructor` | crates/omrp-core/src/ledger.rs:162-168 | A new store is empty, with the genesis checksum |
| `Ledger.LedgerStore.Append` | crates/omrp-core/src/ledger.rs:171-178 | One entry is added, numbered by the length and chained to the last checksum, which is updated |
| `Ledger.LedgerStore.AppendAll` | crates/omrp-core/src/pipeline.rs:127-131 | Appending a log to an empty store yields its chain |
| `Ledger.LedgerStore.Persist` | crates/omrp-core/src/ledger.rs:209-220 | The file holds one printed line per entry |
| `Ledger.LedgerStore.Load` | crates/omrp-core/src/ledger.rs:225-239 | A file is read entry by entry, blank lines skipped; a bad line or a broken chain is refused and changes nothing |
| `Ledger.HexDecode` | crates/omrp-core/src/ledger.rs:16-28 | The decoding loop accepts exactly 64 hexadecimal digits and returns the bytes they denote |
| `Ledger.HexRoundTrip` | crates/omrp-core/src/ledger.rs:9-42 | Decoding inverts encoding |
| `Ledger.HexLowercase` | crates/omrp-core/src/ledger.rs:30-32 | Checksums are written with the digits 0-9 and a-f |
| `Ledger.LinesOfUnlines` | crates/omrp-core/src/ledger.rs:215-233 | Splitting into lines inverts joining, for lines without line breaks |
| `Ledger.ReturnsDropped` | crates/omrp-core/src/ledger.rs:228 | A carriage return before a line break belongs to the break |
| `Ledger.BlankLinesSkipped` | crates/omrp-core/src/ledger.rs:228-233 | A blank line anywhere in the file changes nothing |
| `Ledger.PersistThenLoad` | crates/omrp-core/src/ledger.rs:209-239 | A persisted store whose entries survive printing and parsing loads back entry for entry iff its chain is intact, and is otherwise refused as tampered with |
| `Ledger.AlterationRefusedExactly` | crates/omrp-core/src/ledger.rs:222-239 | A file is refused iff its entries are not the sealing of their own payloads |
| `Ledger.CutAccepted` | crates/omrp-core/src/ledger.rs:222-239 | A file cut off after any of its entries still loads |
| `Ledger.EditRefused` | crates/omrp-core/src/ledger.rs:82-92 | Editing one entry under its old checksum is refused, or the old and the new entry collide |
| `Ledger.SomePrinterWorks` | crates/omrp-core/src/ledger.rs:215-233 | Whatever the hash and the encoder, every log has a printer and parser under which all its entries survive |
| `Pipeline.EventPipeline.constructor` | crates/omrp-core/src/pipeline.rs:54-59 | A new pipeline has an empty log and is live |
| `Pipeline.EventPipeline.Process` | crates/omrp-core/src/pipeline.rs:62-73 | An invalid event changes nothing; a valid one is logged and applied, and the state stays the replay of the log |
| `Pipeline.EventPipeline.Rebuild` | crates/omrp-core/src/pipeline.rs:87-93 | The loop rebuilds the replay of the log in a fresh state |
| `Pipeline.EventPipeline.VerifyReplay` | crates/omrp-core/src/pipeline.rs:96-100 | Replay verification returns true for every live pipeline |
| `Pipeline.EventPipeline.SaveToLedger` | crates/omrp-core/src/pipeline.rs:127-133 | The file written is the printed chain of the log |
| `Pipeline.EventPipeline.LoadFromLedger` | crates/omrp-core/src/pipeline.rs:111-121 | A good file yields its events, replayed; a bad one an error and nothing else |
| `Pipeline.EventPipeline.TakeOver` | crates/omrp-core/src/pipeline.rs:115-119 | The loop of the load logs and applies every event, without validation |
| `Pipeline.SaveLoadRoundTrip` | crates/omrp-core/src/pipeline.rs:111-133 | The saved file of any log whose entries survive printing and parsing is accepted and yields that log |
| `Pipeline.Restart` | crates/omrp-core/src/pipeline.rs:111-133 | Saving one live pipeline and loading another leaves both with the same log and the same state, when the entries survive printing and parsing |
| `Pipeline.Bootstrap` | crates/omrp-runtime/src/routing.rs:23-37 | The loop appends an add event for each configured model the loaded state does not know |
| `Pipeline.AddMissing` | crates/omrp-runtime/src/routing.rs:29-35 | The loop adds each configured model that was not there before, and logs it |
| `Pipeline.MissingAre` | crates/omrp-runtime/src/routing.rs:27-35 | A bootstrap appends additions from the local configuration of exactly the configured models that were unknown |
| `Pipeline.BootstrapRegisters` | crates/omrp-runtime/src/routing.rs:23-37 | Every configured id is registered exactly once, and the loaded models stay as a prefix |
| `Pipeline.BootstrapIdempotent` | crates/omrp-runtime/src/routing.rs:21-37 | Bootstrapping again from the saved file appends no event, when its entries survive printing and parsing |
| `Xorshift.Xorshift64.constructor` | crates/omrp-core/src/router.rs:173 | The seed, or 1 for seed 0; never zero |
| `Xorshift.Xorshift64.NextU64` | crates/omrp-core/src/router.rs:174-181 | One step of the state word, which stays non-zero |
| `Xorshift.StepInjective` | crates/omrp-core/src/router.rs:174-181 | No two state words share a successor |
| `Xorshift.NeverZero` | crates/omrp-core/src/router.rs:172-181 | No number of draws reaches the absorbing zero word |
| `Xorshift.NeverMerge` | crates/omrp-core/src/router.rs:172-181 | Distinct words stay distinct after any equal number of draws |
| `Xorshift.FirstDraw` | crates/omrp-core/src/router.rs:174-181 | From the word 1 the first draw has exactly the bits 0, 6, 13, 17, 23 and 30 |
| `Xorshift.StepLinear` | crates/omrp-core/src/router.rs:174-181 | A step of the exclusive or of two words is the exclusive or of their steps |
| `LoginGuard.Guard.LockoutSecs` | crates/omrp-runtime/src/db.rs:1274-1287 | The seconds left, iff the row's lock lies in the future |
| `LoginGuard.Guard.RecordFailed` | crates/omrp-runtime/src/db.rs:1291-1314 | The upsert of one row, all others unchanged |
| `LoginGuard.Guard.ClearAttempts` | crates/omrp-runtime/src/db.rs:1317-1325 | The row is gone, all others unchanged |
| `LoginGuard.Guard.AuthLogin` | crates/omrp-runtime/src/web_server.rs:331-368 | Refuse while locked, else clear on success and record on failure |
| `LoginGuard.ServeAll` | crates/omrp-runtime/src/web_server.rs:331-368 | A whole run of logins through the handler gives the answers and leaves the rows that the run lemmas speak of |
| `LoginGuard.OnlyOwnLogins` | crates/omrp-runtime/src/db.rs:1275-1318 | Over any run the answer to a user depends on exactly the earlier logins under names that lower to the same |
| `LoginGuard.SpellingIsOne` | crates/omrp-runtime/src/db.rs:1275-1318 | Names that lower to the same share one count: respelling them changes no answer |
| `LoginGuard.RunExplained` | crates/omrp-runtime/src/db.rs:1265-1325 | In every run with a forward clock the stored count is the streak of recorded failures, its start is the first of them, and the key is locked for 900 s exactly by a streak of five |
| `LoginGuard.AttemptsAtMostFive` | crates/omrp-runtime/src/db.rs:1265-1325 | The stored count never leaves 1..5 |
| `LoginGuard.RefusedExactly` | crates/omrp-runtime/src/web_server.rs:337-342 | An attempt is refused iff it comes within 900 s of a failure that completed a streak of five |
| `LoginGuard.DocumentedLockExactly` | crates/omrp-runtime/src/db.rs:1289-1310 | Five failures within a window, the last under 900 s old, always lock; a locked name meets that condition iff its last five failures lie within a window |
| `LoginGuard.SixSpan` | crates/omrp-runtime/src/db.rs:1265-1269 | Six successive recorded failures span more than 600 s |
| `LoginGuard.WindowHoldsFive` | crates/omrp-runtime/src/db.rs:1265-1325 | Without a successful login in between, any closed 600 s window holds at most five recorded failures for a name |
| `LoginGuard.StreakSpan` | crates/omrp-runtime/src/db.rs:1289-1310 | A streak of n spans at most n-1 windows |
| `LoginGuard.SlowFailuresLock` | crates/omrp-runtime/src/db.rs:1289-1310 | Five failures at equal gaps lock for exactly 900 s iff the gap is at most 600 s |
| `ProxyStore.Database.UpsertProxy` | crates/omrp-runtime/src/db.rs:1025-1039 | Insert under a new id, or refresh and re-activate the row with that url |
| `ProxyStore.Database.DeleteProxy` | crates/omrp-runtime/src/db.rs:1085-1089 | The row is gone; the result says whether it was there |
| `ProxyStore.Database.ActivateProxy` | crates/omrp-runtime/src/db.rs:1092-1098 | Active with no failures; the result says whether the row exists |
| `ProxyStore.Database.DeactivateProxy` | crates/omrp-runtime/src/db.rs:1101-1107 | Inactive with five failures; the result says whether the row exists |
| `ProxyStore.Database.MarkResult` | crates/omrp-runtime/src/db.rs:1114-1136 | Uptime, failure count, activity, latency and check time of one row after a result |
| `ProxyStore.Database.ActiveProxies` | crates/omrp-runtime/src/db.rs:1041-1051 | The listing loaded into the pool |
| `ProxyStore.UptimeStaysInRange` | crates/omrp-runtime/src/db.rs:1118-1134 | MIN and MAX never change a value, and uptime stays a percentage |
| `ProxyStore.ChangeKeepsHealthy` | crates/omrp-runtime/src/db.rs:1025-1136 | Every row operation keeps the table invariant |
| `ProxyStore.ReachableHealthy` | crates/omrp-runtime/src/db.rs:1025-1136 | In every reachable table a row is active iff it has under five failures, uptime is in [0,100], urls are unique |
| `ProxyStore.FiveFailuresDisable` | crates/omrp-runtime/src/db.rs:1126-1133 | n failures in a row disable a proxy iff they bring its count to five |
| `ProxyStore.ListingIs` | crates/omrp-runtime/src/db.rs:1041-1051 | The listing has distinct active rows, best first, at most 200, and leaves out an active row only when full of rows not behind it |
| `ProxyStore.ListingOrdered` | crates/omrp-runtime/src/db.rs:1043-1046 | Of two listed rows the earlier has no latency or one at most the later's, and at equal latency at least its uptime |
| `ProxyStore.UpsertExactly` | crates/omrp-runtime/src/db.rs:1025-1039 | A known url keeps its id, uptime, latency and dates and is active without failures; a new one gets an id above all, full uptime and no measurements; no other row changes |
| `ProxyServer.ProxyPool.Load` | crates/omrp-runtime/src/proxy.rs:78-93 | The pool becomes the listing; the cursor stays |
| `ProxyServer.ProxyPool.Next` | crates/omrp-runtime/src/proxy.rs:106-111 | The entry under the cursor, which moves by one unless the pool is empty |
| `ProxyServer.ProxyPool.Nth` | crates/omrp-runtime/src/proxy.rs:115-122 | The n-th entry from the cursor, wrapping |
| `ProxyServer.ProxyPool.Advance` | crates/omrp-runtime/src/proxy.rs:126-128 | The cursor moves by n |
| `ProxyServer.ProxyPool.MarkSuccess` | crates/omrp-runtime/src/proxy.rs:132-134 | The row is marked; the pool stays |
| `ProxyServer.ProxyPool.MarkFailure` | crates/omrp-runtime/src/proxy.rs:138-143 | The row is marked and the proxy leaves the pool at once |
| `ProxyServer.Server.AdminAdd` | crates/omrp-runtime/src/web_server.rs:953-966 | Upsert unless the url is empty; the pool is not reloaded |
| `ProxyServer.Server.AdminDelete` | crates/omrp-runtime/src/web_server.rs:968-978 | Delete, and reload the pool iff a row was there |
| `ProxyServer.Server.AdminSetStatus` | crates/omrp-runtime/src/web_server.rs:996-1013 | Activate or deactivate, and reload the pool iff a row was there |
| `ProxyServer.Server.AdminRefresh` | crates/omrp-runtime/src/web_server.rs:1015-1033 | Upsert what was fetched, then reload the pool |
| `ProxyServer.AddedLater` | crates/omrp-runtime/src/web_server.rs:953-966 | An added proxy is in the table at once and in the pool from the next reload on, unless that is full |
| `ProxyServer.RefusedRequests` | crates/omrp-runtime/src/web_server.rs:953-1013 | Requests without a url, or about a proxy that is not there, change nothing |
| `ProxyServer.Server.Settle` | crates/omrp-runtime/src/web_server.rs:1949-2007 | What each provider answer does to table, pool and cursor in the non-streaming loop, and whether the loop goes on |
| `ProxyServer.Server.SettleStream` | crates/omrp-runtime/src/web_server.rs:1821-1847 | The same in the streaming loop, whose error classes differ |
| `ProxyServer.Server.ProxyCompletionLoop` | crates/omrp-runtime/src/web_server.rs:1896-2008 | The non-streaming loop leaves the world, tries and outcome of the recursive attempt function |
| `ProxyServer.Server.ProxyCompletion` | crates/omrp-runtime/src/web_server.rs:1896-2008 | Through the pool with bypass and a non-empty pool, else one direct attempt that touches neither table nor pool |
| `ProxyServer.Server.StreamCompletionLoop` | crates/omrp-runtime/src/web_server.rs:1803-1848 | The streaming loop leaves the world, tries and outcome of the recursive attempt function |
| `ProxyServer.Server.StreamCompletion` | crates/omrp-runtime/src/web_server.rs:1803-1848 | The same choice for streaming |
| `ProxyServer.DirectExactly` | crates/omrp-runtime/src/web_server.rs:1896-1941 | A request goes direct iff it has no bypass or finds the pool empty, and is then served iff that one attempt is |
| `ProxyServer.BypassGoesDirect` | crates/omrp-runtime/src/web_server.rs:1896-1993 | From an empty table: add a proxy, load it, meet one broken connection; the next request with bypass goes direct although the proxy is still active in the table |
| `ProxyServer.AttemptLoopKeeps` | crates/omrp-runtime/src/web_server.rs:1909-2008 | Whatever every single attempt keeps, the whole loop keeps |
| `Replies.AttemptsExactly` | crates/omrp-runtime/src/web_server.rs:1896-2008 | A request makes attempts until the first answer that ends it, or as many as there are proxies, at most twelve; it is served iff the last answer serves it. Which answers end it is listed by answer, loop and attempt |
| `Replies.EffectExactly` | crates/omrp-runtime/src/web_server.rs:1949-2007 | It drops exactly the proxies whose answer broke, marks exactly their rows failed and the serving row served, in numbers, and changes nothing else; without either, nothing at all. Which answers break is listed by answer and loop |
| `Replies.RefusalStops` | crates/omrp-runtime/src/web_server.rs:1996-2006 | When the first answer other than a rate limit is a refused key, or outside streaming an unknown model or, from the second attempt, any other error, nothing is changed or served and no further proxy is tried |
| `Replies.FirstErrorGoesOn` | crates/omrp-runtime/src/web_server.rs:2002-2006 | Outside streaming another error on the first attempt goes on iff there is a second proxy |
| `Replies.LoopInduction` | crates/omrp-runtime/src/web_server.rs:1909-2008 | What holds of an idle loop, of one that ends, and of one that goes on when it holds of the rest, holds of every loop |
| `ProxyServer.AttemptLoopAgrees` | crates/omrp-runtime/src/web_server.rs:1909-2008 | Every run of an attempt loop, on any replies, keeps pool and table in agreement |
| `ProxyServer.HandledAgrees` | crates/omrp-runtime/src/web_server.rs:953-1033 | So does every handler |
| `ProxyServer.AlwaysAgrees` | crates/omrp-runtime/src/proxy.rs:78-143 | After any sequence of requests every pooled proxy is an active row under its own url, once, and the table invariant holds |
| `Rotation.LoopRotates` | crates/omrp-runtime/src/web_server.rs:1909-2008 | The proxies a request tries depend on pool, cursor and the pattern of drops alone |
| `Rotation.FreshProxiesExactly` | crates/omrp-runtime/src/proxy.rs:113-122 | No proxy is tried twice, wherever the cursor stands, iff no drop but possibly the last attempt's follows a kept proxy |
| `Rotation.FreshAtCursorExactly` | crates/omrp-runtime/src/proxy.rs:113-122 | One request tries no proxy twice iff the rotation over positions, from pool length, cursor and drop pattern alone, hits none twice |
| `Rotation.ServedRequestDistinct` | crates/omrp-runtime/src/web_server.rs:1909-1985 | A request that meets only rate limits before success tries pairwise distinct proxies |
| `Rotation.SessionIsRoundRobin` | crates/omrp-runtime/src/proxy.rs:113-128 | The tries of a session of such requests, put together, are the plain round-robin sequence |
| `Rotation.SessionIsFair` | crates/omrp-runtime/src/proxy.rs:104-128 | Over such a session the uses of two proxies differ by at most one |
| `Rotation.CursorExactly` | crates/omrp-runtime/src/web_server.rs:1950-1954 | The cursor moves iff the request is served, and then past everything it tried |
| `Rotation.SameProxyAgain` | crates/omrp-runtime/src/proxy.rs:124-128 | After a request that dropped nothing, the next one starts from the same proxy iff this one was not served, or was served after going through the whole pool |
| `GitDiff.Consume` | crates/omrp-core/src/rtk/filters/git_diff.rs:22-74 | One line read is one step of the summary machine |
| `GitDiff.Compress` | crates/omrp-core/src/rtk/filters/git_diff.rs:12-95 | The loop with its cap and its final settlement computes `Output` |
| `GitDiff.KindExactly` | crates/omrp-core/src/rtk/filters/git_diff.rs:22-69 | The kinds of lines by their first characters |
| `GitDiff.FileNameExactly` | crates/omrp-core/src/rtk/filters/git_diff.rs:32-37 | The name is what stands between the first and second ` b/` of the header line, or to its end; without any, "unknown" |
| `GitDiff.VisibleExactly` | crates/omrp-core/src/rtk/filters/git_diff.rs:52-72 | Worth showing are the counted changes and each context line after one |
| `GitDiff.OutputBounded` | crates/omrp-core/src/rtk/filters/git_diff.rs:12-95 | At most 504 items are pushed, for every input |
| `GitDiff.OutputIsSummary` | crates/omrp-core/src/rtk/filters/git_diff.rs:12-95 | Below the cap the output is, item for item, the structural summary: per file the numbers of lines the loop counts as added and removed, per hunk a hundred visible lines and the number of counted ones left out, and a pointer to the full diff iff something was truncated |
| `GitDiff.CappedOutput` | crates/omrp-core/src/rtk/filters/git_diff.rs:76-92 | At the cap the output is the summary of the lines read, interrupted once by the cap's marker after 500 to 502 items |
| `GitDiff.FileStatsExactly` | crates/omrp-core/src/rtk/filters/git_diff.rs:52-72 | For a named file, the `+a -r` line tells the numbers of hunk lines starting with `+` and `-` iff no hunk line starts with `+++` or `---` |
| `GitDiff.DoubledVanishes` | crates/omrp-core/src/rtk/filters/git_diff.rs:53-72 | A hunk whose only line starts with `+++` or `---` leaves nothing but its header: no line, no count, no marker |
| `GitDiff.RemovedCommentVanishes` | crates/omrp-core/src/rtk/filters/git_diff.rs:61-72 | A removed SQL comment is such a line |
| `GitDiff.HunkConserves` | crates/omrp-core/src/rtk/filters/git_diff.rs:43-73 | Of the lines the loop counts, those shown plus the number reported as truncated are all, and none is hidden while fewer than a hundred lines are shown |
| `GitDiff.HunkBalance` | crates/omrp-core/src/rtk/filters/git_diff.rs:43-73 | Of all `+` and `-` lines of a hunk, those shown plus the number reported fall short by exactly the doubled lines not shown, so the account balances iff every doubled line follows a counted change and lies within the first hundred visible lines |
| `GitDiff.ShowsThrough` | crates/omrp-core/src/rtk/filters/git_diff.rs:53-72 | For every cap m, every k and every kind of line: the first m visible lines hold k of that kind iff the k-th is among them |
| `GitDiff.HunkCapExactly` | crates/omrp-core/src/rtk/filters/git_diff.rs:3-9 | With k = min(100, `+` and `-` lines), a hunk shows k of them iff k remain without the doubled ones before the first counted change, and at most 100 lines are visible up to and including the k-th |
| `GitDiff.CountedCapExactly` | crates/omrp-core/src/rtk/filters/git_diff.rs:3-9 | The same for the lines the loop counts, of which none is lost before the first |
| `GitDiff.ContextUsesCap` | crates/omrp-core/src/rtk/filters/git_diff.rs:69-72 | Of two changed lines with n context lines between them the second is hidden iff n >= 99 |
| `Compressor.CompressionStats.constructor` | crates/omrp-core/src/rtk/mod.rs:47-52 | Statistics start at zero |
| `Compressor.CompressionStats.CompressText` | crates/omrp-core/src/rtk/mod.rs:176-201 | One string is replaced iff its size is eligible, a filter applies and the result is non-empty and shorter; the statistics record it and stay balanced |
| `Compressor.CompressionStats.Savings` | crates/omrp-core/src/rtk/mod.rs:62-64 | For balanced statistics, the total that the hits saved: the saturation never acts |
| `Compressor.CompressMessages` | crates/omrp-core/src/rtk/mod.rs:81-159 | Nothing when disabled or without a message array; else every eligible string mapped in place and tallied in order |
| `Compressor.CompressMessage` | crates/omrp-core/src/rtk/mod.rs:90-156 | The same for one message: tool role, tool results, function output |
| `Compressor.CompressToolResults` | crates/omrp-core/src/rtk/mod.rs:115-138 | The same for the blocks of a message |
| `Compressor.CompressBlocks` | crates/omrp-core/src/rtk/mod.rs:117-137 | The same for each tool result that is not an error trace |
| `Compressor.CompressField` | crates/omrp-core/src/rtk/mod.rs:122-136 | The same for a string or an array of parts |
| `Compressor.CompressParts` | crates/omrp-core/src/rtk/mod.rs:101-107 | The same for parts of one type |
| `Compressor.CompressedShrinks` | crates/omrp-core/src/rtk/mod.rs:192-200 | No string grows or becomes newly empty, and a changed one is strictly shorter |
| `Compressor.CompressedExactly` | crates/omrp-core/src/rtk/mod.rs:176-201 | A string is replaced by what its filter makes of it iff it has 500 bytes to 10 MiB and that is shorter but not empty |
| `Compressor.HitsExactly` | crates/omrp-core/src/rtk/mod.rs:198-200 | The hits are, in order, filter and bytes saved of each eligible string that was replaced |
| `Compressor.BytesJoin` | crates/omrp-core/src/rtk/mod.rs:177 | Lengths in bytes add up, between one and four a character |
| `Compressor.Utf8Widths` | crates/omrp-core/src/rtk/mod.rs:177 | Where one, two, three and four bytes begin and end |
| `Compressor.TallyAccounts` | crates/omrp-core/src/rtk/mod.rs:176-201 | Both totals are the summed lengths before and after, every hit saves something, and the savings add up to the difference |
| `Compressor.BodyLaws` | crates/omrp-core/src/rtk/mod.rs:86-156 | Listing the eligible strings after a rewrite is rewriting the list, and a later rewrite that cannot see the first absorbs it |
| `Compressor.CompressionExactly` | crates/omrp-core/src/rtk/mod.rs:81-201 | For every body and every filter: with the eligible strings blanked out, the body is unchanged; they become their compressed forms in order; the statistics balance |
| `Rewriting.RewritingExactly` | crates/omrp-core/src/rtk/mod.rs:81-159 | The returned body is the one body that the relation over the JSON itself describes: part by part, block by block, message by message |
| `Rewriting.ListingExactly` | crates/omrp-core/src/rtk/mod.rs:81-159 | The strings counted, and their order, are those a second listing over the JSON itself gives |
| `Rewriting.BlockLeftAlone` | crates/omrp-core/src/rtk/mod.rs:117-120 | An error trace, and a block that is not a tool result, comes back identical and adds nothing to the totals |
| `Rewriting.MessageLeftAlone` | crates/omrp-core/src/rtk/mod.rs:90-155 | So does a message without tool role, tool result and function output |
| `Rewriting.ToolContentCompressed` | crates/omrp-core/src/rtk/mod.rs:94-113 | The content of a tool message is replaced by its compressed form, and is counted in its place |
| `Rewriting.ToolResultCompressed` | crates/omrp-core/src/rtk/mod.rs:117-125 | So is the content of a tool result that reports no error |
| `Rewriting.OutputCompressed` | crates/omrp-core/src/rtk/mod.rs:140-143 | So is the output of a function call |

## Left out

- HTTP, SSE streaming, provider clients and their construction errors, retries inside a client, sleeps, SQLite, the file system, Argon2, JWT, SHA-256 and JSON syntax.
- Floating-point rounding, NaN ordering, saturation and overflow of counters, wrap-around of the pool cursor.
- Interleavings of handlers: the lock check and the recording of a failed login are separate database calls in the source.
- `sample_gamma`, `sample_beta` and Box-Muller: a Thompson sample is an arbitrary real number.
- The keyword classifier, the prompt builder, configuration parsing, the terminal and web front ends, and the small filters besides the diff compactor: text heuristics.
- API keys, the hourly rate limit, provider-key precedence, request logs, `last_err` texts, log lines, `savings_pct` and `format_rtk_log`.
- `maybe_refresh`, fetching and parsing a proxy list, trimming an added proxy's url and reading its protocol: the url, its protocol and the fetched changes are inputs. The protocol field of a pool entry is not modelled.
- Formatting of the diff compactor's lines: an item says which text is pushed and from which numbers; its loop variables are kept in one record.
- ProxyStore.Database.ActiveProxies: rows that tie on latency and uptime come in id order, which SQL leaves open.
- Compressor.CompressMessages: returns the rewritten body instead of changing it through a mutable reference, so update in place and aliasing of body parts are not captured; the statistics are an object updated in place.
- Router.RouterEngine.SelectForTier: the restriction works on a snapshot, as the source's does on a clone.
- Ledger.LedgerStore.Load: replaces the contents of the receiver, where the source builds a new store.
- Pipeline.EventPipeline.LoadFromLedger: fills an empty receiver, where the source builds a new pipeline.
- LoginGuard.ServeAll: a client that makes one request after another; the source has no such loop.
- ProxyServer.Server.ProxyCompletion: the direct attempt, one iteration of the same loop in the source, is a branch of its own here.
- Scorer: the default weights only; with other weights the score has no bound of this form.
