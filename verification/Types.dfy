/** The vocabulary shared by every part of the router: models, requests, routing decisions,
    the fourteen event kinds, and the validation that guards the pipeline. */
module Types {

  datatype Option<+T> = None | Some(value: T)

  datatype Result<+T, +E> = Ok(value: T) | Err(error: E)

  type ModelId = string

  datatype TaskType = Code | Reasoning | Chat | Vision | Analysis

  datatype ModelCapabilities = ModelCapabilities(
    taskSuitability: seq<TaskType>,
    supportsVision: bool,
    supportsToolUse: bool,
    contextWindow: nat
  )

  datatype Model = Model(id: ModelId, provider: string, capabilities: ModelCapabilities)

  datatype RouteRequest = RouteRequest(
    taskType: TaskType,
    maxLatencyMs: Option<nat>,
    requireVision: bool,
    requireToolUse: bool,
    minContextWindow: Option<nat>,
    maxInflightPerModel: Option<nat>
  )

  /** Logical time.  `tick` is the source's `seq` field; instants are compared field by field in
      declaration order. */
  datatype SequencedInstant = SequencedInstant(tick: nat, logicalTime: nat) {
    predicate After(other: SequencedInstant) {
      tick > other.tick || (tick == other.tick && logicalTime > other.logicalTime)
    }
  }

  const EPOCH := SequencedInstant(0, 0)

  datatype ScoreFactor = ScoreFactor(name: string, value: real, weight: real) {
    function Contribution(): real {
      value * weight
    }
  }

  datatype ModelScore = ModelScore(modelId: ModelId, total: real, factors: seq<ScoreFactor>)

  datatype RoutingDecision = RoutingDecision(
    selectedModel: ModelId,
    score: real,
    scores: seq<ModelScore>,
    reasoning: seq<ScoreFactor>,
    fallbackChain: seq<ModelId>,
    timestamp: nat,
    request: RouteRequest
  )

  datatype RoutingReason =
    | TopScore | Fallback | UserPreference | DegradedMode
    | LatencyOptimization | CostOptimization | LoadBalancing | Exclusive

  datatype RoutingCacheEntry = RoutingCacheEntry(modelId: ModelId, score: real, selectedAt: SequencedInstant)

  datatype FallbackEntry = FallbackEntry(source: ModelId, target: ModelId, at: SequencedInstant)

  datatype RoutingCache = RoutingCache(lastSelected: Option<RoutingCacheEntry>, lastFallback: Option<FallbackEntry>)

  datatype ModelSource = Bundled | LocalConfig | UserContributed | AutoDiscovered

  datatype ErrorKind =
    | RateLimited(retryAfter: Option<nat>)
    | Timeout(timeoutMs: nat)
    | AuthError
    | ModelNotAvailable
    | NetworkError(detail: string)
    | InternalError(detail: string)

  datatype Event =
    | DaemonStarted(version: string)
    | DaemonStopped(reason: string)
    | ModelAdded(model: Model, source: ModelSource)
    | ModelRemoved(modelId: ModelId, reason: string)
    | ConfigReloaded(config: string)
    | ModelSelected(modelId: ModelId, request: RouteRequest, score: real, why: RoutingReason)
    | FallbackTriggered(fromId: ModelId, toId: ModelId, cause: string)
    | DegradeModeEnabled(modelId: ModelId, reason: string)
    | CompletionRequested(modelId: ModelId, taskType: TaskType, promptTokens: nat)
    | CompletionFinished(modelId: ModelId, latencyMs: nat, tokensUsed: nat, success: bool)
    | ModelFailed(modelId: ModelId, kind: ErrorKind)
    | ProbeUpdated(modelId: ModelId, health: real, latencyMs: nat)
    | ProbeFailed(modelId: ModelId, detail: string)
    | ReportReceived(modelId: ModelId, success: bool, latencyMs: nat, tokens: nat)

  // ----- validation --------------------------------------------------------------------------

  /** The Unicode White_Space characters, which `trim` removes. */
  predicate IsWhitespace(c: char) {
    '\U{0009}' <= c <= '\U{000D}' || c == ' ' || c == '\U{0085}' || c == '\U{00A0}' || c == '\U{1680}'
    || '\U{2000}' <= c <= '\U{200A}' || c == '\U{2028}' || c == '\U{2029}' || c == '\U{202F}'
    || c == '\U{205F}' || c == '\U{3000}'
  }

  /** `s.trim().is_empty()` */
  predicate IsBlank(s: string) {
    forall i :: 0 <= i < |s| ==> IsWhitespace(s[i])
  }

  datatype ValidationError =
    | DaemonStartedEmptyVersion
    | DaemonStoppedEmptyReason
    | ModelRemovedEmptyReason
    | ConfigReloadedEmptySource
    | ModelSelectedNegativeScore
    | FallbackTriggeredEmptyCause
    | DegradeModeEnabledEmptyReason
    | CompletionRequestedEmptyPrompt
    | CompletionFinishedNegativeLatency
    | CompletionFinishedNegativeTokens
    | ProbeUpdatedInvalidHealth
    | ProbeUpdatedNegativeLatency
    | ProbeFailedEmptyError
    | ReportReceivedNegativeLatency
    | ReportReceivedNegativeTokens

  /** The first rule an event breaks, or `None` when it may enter the pipeline. */
  function Validate(e: Event): Option<ValidationError> {
    match e
    case DaemonStarted(version) => if IsBlank(version) then Some(DaemonStartedEmptyVersion) else None
    case DaemonStopped(reason) => if IsBlank(reason) then Some(DaemonStoppedEmptyReason) else None
    case ModelAdded(_, _) => None
    case ModelRemoved(_, reason) => if IsBlank(reason) then Some(ModelRemovedEmptyReason) else None
    case ConfigReloaded(config) => if IsBlank(config) then Some(ConfigReloadedEmptySource) else None
    case ModelSelected(_, _, score, _) => if score < 0.0 then Some(ModelSelectedNegativeScore) else None
    case FallbackTriggered(_, _, cause) => if IsBlank(cause) then Some(FallbackTriggeredEmptyCause) else None
    case DegradeModeEnabled(_, reason) => if IsBlank(reason) then Some(DegradeModeEnabledEmptyReason) else None
    case CompletionRequested(_, _, promptTokens) =>
      if promptTokens == 0 then Some(CompletionRequestedEmptyPrompt) else None
    case CompletionFinished(_, latencyMs, tokensUsed, _) =>
      if latencyMs == 0 then Some(CompletionFinishedNegativeLatency)
      else if tokensUsed == 0 then Some(CompletionFinishedNegativeTokens)
      else None
    case ModelFailed(_, _) => None
    case ProbeUpdated(_, health, latencyMs) =>
      if health < 0.0 || health > 1.0 then Some(ProbeUpdatedInvalidHealth)
      else if latencyMs == 0 then Some(ProbeUpdatedNegativeLatency)
      else None
    case ProbeFailed(_, detail) => if IsBlank(detail) then Some(ProbeFailedEmptyError) else None
    case ReportReceived(_, _, latencyMs, tokens) =>
      if latencyMs == 0 then Some(ReportReceivedNegativeLatency)
      else if tokens == 0 then Some(ReportReceivedNegativeTokens)
      else None
  }

  predicate HasInk(s: string) {
    exists i :: 0 <= i < |s| && !IsWhitespace(s[i])
  }

  /** Exactly the events that may enter the pipeline: texts that are required are not blank, scores are not
      negative, a probe's health lies in [0, 1], and token counts and latencies are positive. */
  lemma ValidExactly(e: Event)
    ensures Validate(e) == None <==>
      && (e.DaemonStarted? ==> HasInk(e.version))
      && (e.DaemonStopped? || e.ModelRemoved? || e.DegradeModeEnabled? ==> HasInk(e.reason))
      && (e.ConfigReloaded? ==> HasInk(e.config))
      && (e.FallbackTriggered? ==> HasInk(e.cause))
      && (e.ProbeFailed? ==> HasInk(e.detail))
      && (e.ModelSelected? ==> e.score >= 0.0)
      && (e.ProbeUpdated? ==> 0.0 <= e.health <= 1.0)
      && (e.ProbeUpdated? || e.CompletionFinished? || e.ReportReceived? ==> e.latencyMs >= 1)
      && (e.CompletionRequested? ==> e.promptTokens >= 1)
      && (e.CompletionFinished? ==> e.tokensUsed >= 1)
      && (e.ReportReceived? ==> e.tokens >= 1)
  {
  }

  /** Among the ASCII characters, space, tab, line feed, vertical tab, form feed and carriage return are blank. */
  lemma AsciiWhitespace(c: char)
    requires c as int < 128
    ensures IsWhitespace(c) <==> c as int in {9, 10, 11, 12, 13, 32}
  {
  }
}
