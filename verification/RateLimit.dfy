/**
 Rate-limit evidence and bounded delays of the dispatch client (scripts/autopilot-dispatch-retry.js). Numbers that the
 source reads from a response are reals; a value it cannot use is told apart from an absent one only where it tells.
 */
module RateLimit {
  import opened Numbers
  import opened Prelude

  const MAX_RETRY_DELAY_MS := 60000
  const MAX_REPORTED_QUOTA_RETRY_DELAY_MS := 90000000
  const EPOCH_SECONDS_LIMIT := 1000000000000.0

  /** The Retry-After header (RFC 9110, section 10.2.3): delay seconds, an HTTP date, or neither. */
  datatype RetryAfter = NoHeader | Seconds(seconds: real) | HttpDate(ms: int) | OtherText

  datatype TimeValue = Absent | Epoch(number: real) | DateText(ms: int) | Unusable

  datatype Remediation = Remediation(
    outcome: string, failureClass: string, recovery: string, retryable: bool, attempt: int, maxAttempts: int)

  /** The fields of a response body the client reads; a body that is not an object has none of them. */
  datatype Payload = Payload(
    providerStopReason: Option<string>, reason: Option<string>, error: Option<string>, code: Option<string>,
    status: Option<string>, stopReason: Option<string>, lastFailure: Option<string>,
    retryAt: TimeValue, nextRetryAt: TimeValue, resetAt: TimeValue, resetTimestamp: TimeValue,
    retryAfterMs: Option<real>, remediation: Option<Remediation>)

  // ----- Delays -----

  function ClampRetryDelayMs(value: real, maxMs: nat): Option<int> {
    if value < 0.0 then None else Some(if value.Floor < maxMs then value.Floor else maxMs)
  }

  function RetryTimestampMs(value: TimeValue, observedAt: int, maxMs: nat): Option<int> {
    match value
    case Epoch(number) =>
      if number < 0.0 then None
      else
        var ms := if number < EPOCH_SECONDS_LIMIT then number * 1000.0 else number;
        ClampRetryDelayMs(ms - observedAt as real, maxMs)
    case DateText(ms) => ClampRetryDelayMs((ms - observedAt) as real, maxMs)
    case _ => None
  }

  function FirstOf(a: Option<int>, b: Option<int>): Option<int> {
    if a.Some? then a else b
  }

  /** Header first, then the absolute times of the body, then its relative delay. */
  function RetryHint(header: RetryAfter, payload: Payload, observedAt: int, maxMs: nat): Option<int> {
    if header.Seconds? && header.seconds >= 0.0 then ClampRetryDelayMs(header.seconds * 1000.0, maxMs)
    else
      var dated := if header.HttpDate? then RetryTimestampMs(DateText(header.ms), observedAt, maxMs) else None;
      FirstOf(dated,
        FirstOf(RetryTimestampMs(payload.retryAt, observedAt, maxMs),
          FirstOf(RetryTimestampMs(payload.nextRetryAt, observedAt, maxMs),
            FirstOf(RetryTimestampMs(payload.resetAt, observedAt, maxMs),
              FirstOf(RetryTimestampMs(payload.resetTimestamp, observedAt, maxMs),
                if payload.retryAfterMs.Some? then ClampRetryDelayMs(payload.retryAfterMs.value, maxMs) else None)))))
  }

  /** A delay moved by up to a tenth either way; an unusable sample counts as the middle of the range. */
  function Jittered(base: real, sample: Option<real>): real {
    var normalized := if sample.Some? && 0.0 <= sample.value <= 1.0 then sample.value else 0.5;
    base + (normalized * 2.0 - 1.0) * base * 0.1
  }

  /** Exponential backoff with jitter. */
  function BoundedBackoffMs(baseBackoffMs: nat, attempt: nat, sample: Option<real>): int {
    var raw := baseBackoffMs * Pow2(if attempt >= 1 then attempt - 1 else 0);
    var base := (if raw < MAX_RETRY_DELAY_MS then raw else MAX_RETRY_DELAY_MS) as real;
    var delay := ClampRetryDelayMs(Jittered(base, sample), MAX_RETRY_DELAY_MS);
    if delay.Some? then delay.value else 0
  }

  // ----- Classification -----

  function ProviderRateLimitCode(text: Option<string>): Option<string> {
    if text.None? then None
    else if text.value == "WAITING_PROVIDER_CAPACITY" then Some("PROVIDER_RATE_LIMITED")
    else if text.value in {"RATE_LIMITED", "WORKERS_AI_DAILY_QUOTA_EXHAUSTED", "WORKERS_AI_RATE_LIMITED",
      "PROVIDER_RATE_LIMITED"}
      then text
    else None
  }

  function FirstCode(texts: seq<Option<string>>): Option<string> {
    if |texts| == 0 then None
    else if ProviderRateLimitCode(texts[0]).Some? then ProviderRateLimitCode(texts[0])
    else FirstCode(texts[1..])
  }

  function CodeFromPayload(p: Payload): Option<string> {
    var code := FirstCode([p.providerStopReason, p.reason, p.error, p.code, p.status, p.stopReason, p.lastFailure]);
    if code.Some? then code
    else if p.status in {Some("WAITING_RATE_LIMIT"), Some("BLOCKED_RATE_LIMIT")} then Some("PROVIDER_RATE_LIMITED")
    else None
  }

  const FAILURE_CLASSES := {
    "AUDIT_BLOCKED", "RELEASE_BLOCKED", "DEPLOYMENT_FAILURE", "PERMISSION_FAILURE", "WORKFLOW_NOT_ELIGIBLE",
    "AUTHORITY_VIOLATION", "EVIDENCE_UNVERIFIED", "EVIDENCE_MISMATCH", "REQUEST_INVALID", "PROVIDER_CAPACITY",
    "PROVIDER_FAILURE", "PROPOSAL_REJECTED", "UNKNOWN"
  }
  const RECOVERIES := {"STOP", "WAIT_FOR_PROVIDER", "RETRY_BOUNDED", "REGENERATE_PROPOSAL", "REDISPATCH_FRESH_EVIDENCE"}
  const TERMINAL_CLASSES := {
    "AUDIT_BLOCKED", "RELEASE_BLOCKED", "DEPLOYMENT_FAILURE", "PERMISSION_FAILURE", "WORKFLOW_NOT_ELIGIBLE",
    "AUTHORITY_VIOLATION", "REQUEST_INVALID", "UNKNOWN"
  }

  /** A worker's remediation decision, or None when it is not one of the allowed combinations. */
  function BoundedRemediationDecision(v: Remediation): Option<Remediation> {
    if v.outcome !in {"VALID_NO_ACTION", "FAILED_TO_REMEDIATE", "FAILED_CLOSED"} || v.failureClass !in FAILURE_CLASSES
      || v.recovery !in RECOVERIES || v.attempt != 0 || v.maxAttempts < 1 || v.maxAttempts > 3 then None
    else if v.retryable && (v.outcome != "FAILED_TO_REMEDIATE" || v.attempt >= v.maxAttempts) then None
    else if v.outcome == "VALID_NO_ACTION" && (v.retryable || v.failureClass != "UNKNOWN" || v.recovery != "STOP")
    then None
    else if v.outcome == "FAILED_CLOSED" && v.retryable then None
    else if v.failureClass in TERMINAL_CLASSES
      && (v.retryable || v.recovery != "STOP" || (v.outcome != "FAILED_CLOSED" && v.outcome != "VALID_NO_ACTION"))
    then None
    else if v.retryable && !(
      || (v.failureClass == "PROPOSAL_REJECTED" && v.recovery == "REGENERATE_PROPOSAL")
      || (v.failureClass in {"PROVIDER_FAILURE", "EVIDENCE_UNVERIFIED"} && v.recovery == "RETRY_BOUNDED")) then None
    else Some(v)
  }

  /** The body or the code says that the stop lasts until a provider quota resets. */
  predicate LongLivedQuotaStop(code: string, p: Payload) {
    || code == "WORKERS_AI_DAILY_QUOTA_EXHAUSTED"
    || p.stopReason in {Some("WORKERS_AI_DAILY_QUOTA_EXHAUSTED"), Some("WAITING_PROVIDER_CAPACITY")}
    || p.providerStopReason in {Some("WORKERS_AI_DAILY_QUOTA_EXHAUSTED"), Some("WAITING_PROVIDER_CAPACITY")}
    || p.error == Some("WAITING_PROVIDER_CAPACITY")
  }

  /** What the loops record of an attempt. */
  datatype Decision = RETRY | DISPATCHED | NO_ACTION | FAILED_CLOSED

  /** The reply asks for a delay beyond the local ceiling, when read without it. */
  predicate AsksLong(header: RetryAfter, payload: Payload, observedAt: int) {
    var hint := RetryHint(header, payload, observedAt, MAX_REPORTED_QUOTA_RETRY_DELAY_MS);
    hint.Some? && hint.value > MAX_RETRY_DELAY_MS
  }

  datatype Evidence = Evidence(code: string, retryAfterMs: Option<int>)

  function RateLimitCode(status: int, p: Payload): Option<string> {
    var fromBody := CodeFromPayload(p);
    var decision := if p.remediation.Some? then BoundedRemediationDecision(p.remediation.value) else None;
    if fromBody.Some? then fromBody
    else if decision.Some? && decision.value.failureClass == "PROVIDER_CAPACITY"
      && decision.value.recovery == "WAIT_FOR_PROVIDER"
      then Some("PROVIDER_RATE_LIMITED")
    else if status == 429 then Some("RATE_LIMITED")
    else None
  }

  function RateLimitEvidence(status: int, header: RetryAfter, p: Payload, observedAt: int): Option<Evidence> {
    var code := RateLimitCode(status, p);
    if code.None? then None
    else
      var maxMs := if LongLivedQuotaStop(code.value, p) then MAX_REPORTED_QUOTA_RETRY_DELAY_MS else MAX_RETRY_DELAY_MS;
      Some(Evidence(code.value, RetryHint(header, p, observedAt, maxMs)))
  }

  predicate IsStatusChar(c: char) {
    'A' <= c <= 'Z' || 'a' <= c <= 'z' || '0' <= c <= '9' || c in {'_', '.', ':', '-'}
  }

  function SafeWorkerStatus(status: Option<string>): string {
    if status.Some? && 1 <= |status.value| <= 128 && forall i :: 0 <= i < |status.value| ==>
      IsStatusChar(status.value[i])
      then status.value
    else "UNKNOWN"
  }

  // ----- Bounds -----

  lemma ClampBounds(value: real, maxMs: nat)
    ensures ClampRetryDelayMs(value, maxMs).Some? ==> 0 <= ClampRetryDelayMs(value, maxMs).value <= maxMs
  {
  }

  lemma TimestampBounds(value: TimeValue, observedAt: int, maxMs: nat)
    ensures var delay := RetryTimestampMs(value, observedAt, maxMs); delay.Some? ==> 0 <= delay.value <= maxMs
  {
  }

  /** Every hint lies between zero and the ceiling it was read with. */
  lemma HintBounds(header: RetryAfter, p: Payload, observedAt: int, maxMs: nat)
    ensures var hint := RetryHint(header, p, observedAt, maxMs); hint.Some? ==> 0 <= hint.value <= maxMs
  {
    hide RetryTimestampMs, ClampRetryDelayMs;
    if header.Seconds? { ClampBounds(header.seconds * 1000.0, maxMs); }
    if header.HttpDate? { TimestampBounds(DateText(header.ms), observedAt, maxMs); }
    TimestampBounds(p.retryAt, observedAt, maxMs);
    TimestampBounds(p.nextRetryAt, observedAt, maxMs);
    TimestampBounds(p.resetAt, observedAt, maxMs);
    TimestampBounds(p.resetTimestamp, observedAt, maxMs);
    if p.retryAfterMs.Some? { ClampBounds(p.retryAfterMs.value, maxMs); }
  }

  /** The backoff delay is within the local ceiling for every base, attempt and sample. */
  lemma BackoffBounds(baseBackoffMs: nat, attempt: nat, sample: Option<real>)
    ensures 0 <= BoundedBackoffMs(baseBackoffMs, attempt, sample) <= MAX_RETRY_DELAY_MS
  {
  }

  /** A retryable decision is one of two shapes: a rejected proposal to regenerate, or a transient failure to repeat. */
  lemma RetryableDecisions(v: Remediation)
    requires BoundedRemediationDecision(v).Some? && v.retryable
    ensures v.outcome == "FAILED_TO_REMEDIATE" && v.failureClass !in TERMINAL_CLASSES && v.attempt < v.maxAttempts <= 3
    ensures v.recovery == "REGENERATE_PROPOSAL" <==> v.failureClass == "PROPOSAL_REJECTED"
    ensures v.recovery == "RETRY_BOUNDED" <==> v.failureClass in {"PROVIDER_FAILURE", "EVIDENCE_UNVERIFIED"}
  {
  }
}
