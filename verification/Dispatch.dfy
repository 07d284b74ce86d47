/**
 `dispatchWithRetry` (scripts/autopilot-dispatch-retry.js): a bounded loop that asks a worker to execute, with a delay
 after every retry. The token request and the worker's answer to each attempt are inputs.
 */
module Dispatch {
  import opened Prelude
  import opened RateLimit

  const MAX_BASE_BACKOFF_MS := 30000

  /** What happened to one attempt; `sample` is the jitter drawn for its delay. */
  datatype Reply =
    | OidcUnavailable(tokenStatus: Option<int>, retryable: bool, reason: string, sample: Option<real>)
    | NetworkFailure(sample: Option<real>)
    | Answered(status: int, header: RetryAfter, payload: Payload, observedAt: int, sample: Option<real>)

  datatype Record = Record(attempt: nat, decision: Decision, workerStatus: string, reason: Option<string>)

  datatype Ending = Ending(status: string, reason: Option<string>, workerStatus: string)

  /** How one attempt is judged: its record, the delay before the next one, and how the call ends if there is none. */
  datatype Verdict = Verdict(record: Record, delayMs: int, ending: Ending)

  predicate Transient(status: int) {
    status == 429 || 500 <= status <= 599
  }

  function Failed(attempt: nat, retry: bool, workerStatus: string, reason: string, delayMs: int): Verdict {
    Verdict(Record(attempt, if retry then RETRY else FAILED_CLOSED, workerStatus, Some(reason)), delayMs,
      Ending("FAILED_CLOSED", Some(reason), workerStatus))
  }

  predicate WorkerWaiting(p: Payload) {
    p.status in {Some("WAITING_RATE_LIMIT"), Some("BLOCKED_RATE_LIMIT")}
  }

  predicate ProviderCapacity(code: string, p: Payload) {
    code == "PROVIDER_RATE_LIMITED" || code == "WORKERS_AI_RATE_LIMITED"
      || p.status == Some("CODING_PROPOSAL_FAILED_CLOSED")
  }

  function JudgeRateLimit(attempt: nat, more: bool, baseBackoffMs: nat, reply: Reply, evidence: Evidence): Verdict
    requires reply.Answered?
  {
    var waiting, capacity := WorkerWaiting(reply.payload), ProviderCapacity(evidence.code, reply.payload);
    var retry := !waiting && evidence.code != "WORKERS_AI_DAILY_QUOTA_EXHAUSTED" && !capacity && more;
    var delay := if evidence.retryAfterMs.Some? then evidence.retryAfterMs.value
      else BoundedBackoffMs(baseBackoffMs, attempt, reply.sample);
    var paused := waiting || capacity;
    Verdict(Record(attempt, if retry then RETRY else NO_ACTION, "RATE_LIMITED", Some(evidence.code)), delay,
      Ending(if paused then "WAITING_RATE_LIMIT" else "BLOCKED_RATE_LIMIT", Some(evidence.code),
        if paused then "WAITING_RATE_LIMIT" else "RATE_LIMITED"))
  }

  function JudgeAccepted(attempt: nat, workerStatus: string): Verdict {
    if workerStatus in {"EXECUTION_ACCEPTED", "EXECUTION_DISPATCHED"} then
      Verdict(Record(attempt, DISPATCHED, workerStatus, None), 0, Ending("DISPATCHED", None, workerStatus))
    else if workerStatus == "DUPLICATE_EXECUTION_SUPPRESSED" then
      Verdict(Record(attempt, NO_ACTION, workerStatus, Some("duplicate-execution-suppressed")), 0,
        Ending("NO_ACTION", Some("duplicate-execution-suppressed"), workerStatus))
    else Failed(attempt, false, workerStatus, "cloud-coding-runtime-not-ready", 0)
  }

  /** The decision table of one attempt; `more` says whether another attempt is allowed. */
  function Judge(attempt: nat, more: bool, baseBackoffMs: nat, reply: Reply): Verdict {
    var backoff := BoundedBackoffMs(baseBackoffMs, attempt, reply.sample);
    match reply
    case OidcUnavailable(status, retryable, reason, _) =>
      Failed(attempt, retryable && more, "OIDC_UNAVAILABLE", reason, backoff)
    case NetworkFailure(_) => Failed(attempt, more, "NETWORK_FAILURE", "coding-runner-network-failure", backoff)
    case Answered(status, header, payload, observedAt, _) =>
      var evidence := RateLimitEvidence(status, header, payload, observedAt);
      if evidence.Some? then JudgeRateLimit(attempt, more, baseBackoffMs, reply, evidence.value)
      else if 200 <= status <= 299 then
        JudgeAccepted(attempt, SafeWorkerStatus(payload.status))
      else
        Failed(attempt, Transient(status) && more, "HTTP_REJECTED",
          if Transient(status) then "external-coding-runner-transient-failure"
          else "external-coding-runner-rejected-request",
          backoff)
  }

  datatype Summary = Summary(attempts: nat, retries: nat, dispatched: nat, noAction: nat, failedClosed: nat)

  function CountDecision(attempts: seq<Record>, d: Decision): nat {
    if |attempts| == 0 then 0
    else CountDecision(attempts[..|attempts| - 1], d) + if attempts[|attempts| - 1].decision == d then 1 else 0
  }

  function SummaryOf(attempts: seq<Record>): Summary {
    Summary(|attempts|, CountDecision(attempts, RETRY), CountDecision(attempts, DISPATCHED),
      CountDecision(attempts, NO_ACTION), CountDecision(attempts, FAILED_CLOSED))
  }

  datatype Outcome =
    | Returned(ending: Ending, attempts: seq<Record>, sleeps: seq<int>, summary: Summary)
    | Thrown(error: string)

  /** The loop from attempt `attempt` on; `replies[k - 1]` is what attempt `k` gets. */
  function Dispatch(
    replies: seq<Reply>, maxAttempts: nat, baseBackoffMs: nat, attempt: nat, attempts: seq<Record>,
    sleeps: seq<int>): Outcome
    requires attempt >= 1 && |replies| >= maxAttempts
    decreases maxAttempts + 1 - attempt
  {
    if attempt > maxAttempts then Thrown("AUTOPILOT_RETRY_EXHAUSTED")
    else
      var verdict := Judge(attempt, attempt < maxAttempts, baseBackoffMs, replies[attempt - 1]);
      var recorded := attempts + [verdict.record];
      if verdict.record.decision == RETRY then
        Dispatch(replies, maxAttempts, baseBackoffMs, attempt + 1, recorded, sleeps + [verdict.delayMs])
      else Returned(verdict.ending, recorded, sleeps, SummaryOf(recorded))
  }

  /** The counting pass over the attempts. */
  method ResultSummary(attempts: seq<Record>) returns (summary: Summary)
    ensures summary == SummaryOf(attempts)
  {
    var retries, dispatched, noAction, failedClosed := 0, 0, 0, 0;
    for i := 0 to |attempts|
      invariant Summary(i, retries, dispatched, noAction, failedClosed) == SummaryOf(attempts[..i])
    {
      assert attempts[..i + 1][..i] == attempts[..i];
      match attempts[i].decision
      case RETRY => retries := retries + 1;
      case DISPATCHED => dispatched := dispatched + 1;
      case NO_ACTION => noAction := noAction + 1;
      case FAILED_CLOSED => failedClosed := failedClosed + 1;
    }
    assert attempts[..|attempts|] == attempts;
    summary := Summary(|attempts|, retries, dispatched, noAction, failedClosed);
  }

  method DispatchWithRetry(replies: seq<Reply>, maxAttempts: int, baseBackoffMs: int) returns (outcome: Outcome)
    requires |replies| >= maxAttempts
    ensures !(1 <= maxAttempts <= 3) ==> outcome == Thrown("AUTOPILOT_RETRY_LIMIT_INVALID")
    ensures 1 <= maxAttempts <= 3 && !(0 <= baseBackoffMs <= 30000) ==>
      outcome == Thrown("AUTOPILOT_BACKOFF_INVALID")
    ensures 1 <= maxAttempts <= 3 && 0 <= baseBackoffMs <= 30000 ==>
      outcome == Dispatch(replies, maxAttempts, baseBackoffMs, 1, [], [])
  {
    if maxAttempts < 1 || maxAttempts > 3 { return Thrown("AUTOPILOT_RETRY_LIMIT_INVALID"); }
    if baseBackoffMs < 0 || baseBackoffMs > MAX_BASE_BACKOFF_MS { return Thrown("AUTOPILOT_BACKOFF_INVALID"); }
    hide Judge;
    var attempts: seq<Record>, sleeps: seq<int> := [], [];
    var attempt := 1;
    while attempt <= maxAttempts
      invariant 1 <= attempt <= maxAttempts + 1
      invariant Dispatch(replies, maxAttempts, baseBackoffMs, attempt, attempts, sleeps) ==
        Dispatch(replies, maxAttempts, baseBackoffMs, 1, [], [])
    {
      var verdict := Judge(attempt, attempt < maxAttempts, baseBackoffMs, replies[attempt - 1]);
      attempts := attempts + [verdict.record];
      if verdict.record.decision != RETRY {
        var summary := ResultSummary(attempts);
        return Returned(verdict.ending, attempts, sleeps, summary);
      }
      sleeps := sleeps + [verdict.delayMs];
      attempt := attempt + 1;
    }
    outcome := Thrown("AUTOPILOT_RETRY_EXHAUSTED");
  }

  // ----- Laws -----

  /** The last allowed attempt is never judged RETRY. */
  lemma LastAttemptDecides(attempt: nat, baseBackoffMs: nat, reply: Reply)
    ensures Judge(attempt, false, baseBackoffMs, reply).record.decision != RETRY
  {
  }

  lemma {:induction false} SummaryAddsUp(attempts: seq<Record>)
    ensures var s := SummaryOf(attempts); s.attempts == s.retries + s.dispatched + s.noAction + s.failedClosed
  {
    if |attempts| > 0 {
      SummaryAddsUp(attempts[..|attempts| - 1]);
    }
  }

  /** Attempts numbered from one, every one but the last a RETRY that was slept on, as judged from its own reply. */
  ghost predicate Chronicle(
    replies: seq<Reply>, maxAttempts: nat, baseBackoffMs: nat, attempts: seq<Record>, sleeps: seq<int>)
  {
    && |attempts| <= |replies| && |sleeps| <= |attempts|
    && (forall i :: 0 <= i < |attempts| ==>
      attempts[i] == Judge(i + 1, i + 1 < maxAttempts, baseBackoffMs, replies[i]).record)
    && (forall i :: 0 <= i < |sleeps| ==>
      && attempts[i].decision == RETRY
      && sleeps[i] == Judge(i + 1, i + 1 < maxAttempts, baseBackoffMs, replies[i]).delayMs)
  }

  lemma ChronicleGrows(
    replies: seq<Reply>, maxAttempts: nat, baseBackoffMs: nat, attempts: seq<Record>, sleeps: seq<int>,
    verdict: Verdict)
    requires |attempts| == |sleeps| < |replies| && Chronicle(replies, maxAttempts, baseBackoffMs, attempts, sleeps)
    requires verdict == Judge(|attempts| + 1, |attempts| + 1 < maxAttempts, baseBackoffMs, replies[|attempts|])
    ensures Chronicle(replies, maxAttempts, baseBackoffMs, attempts + [verdict.record], sleeps)
    ensures verdict.record.decision == RETRY ==>
      Chronicle(replies, maxAttempts, baseBackoffMs, attempts + [verdict.record], sleeps + [verdict.delayMs])
  {
    hide Judge;
  }

  /** How a run that returns looks. */
  ghost predicate Settled(replies: seq<Reply>, maxAttempts: nat, baseBackoffMs: nat, o: Outcome) {
    && o.Returned?
    && 1 <= |o.attempts| <= maxAttempts && |o.attempts| <= |replies| && |o.sleeps| == |o.attempts| - 1
    && Chronicle(replies, maxAttempts, baseBackoffMs, o.attempts, o.sleeps)
    && o.attempts[|o.attempts| - 1].decision != RETRY
    && o.ending == Judge(|o.attempts|, |o.attempts| < maxAttempts, baseBackoffMs, replies[|o.attempts| - 1]).ending
    && o.summary == SummaryOf(o.attempts)
  }

  lemma SettlesHere(
    replies: seq<Reply>, maxAttempts: nat, baseBackoffMs: nat, attempts: seq<Record>, sleeps: seq<int>,
    verdict: Verdict)
    requires |attempts| == |sleeps| < |replies| && |attempts| < maxAttempts
    requires Chronicle(replies, maxAttempts, baseBackoffMs, attempts + [verdict.record], sleeps)
    requires verdict == Judge(|attempts| + 1, |attempts| + 1 < maxAttempts, baseBackoffMs, replies[|attempts|])
    requires verdict.record.decision != RETRY
    ensures var recorded := attempts + [verdict.record];
      Settled(replies, maxAttempts, baseBackoffMs, Returned(verdict.ending, recorded, sleeps, SummaryOf(recorded)))
  {
    hide Judge, SummaryOf, Chronicle;
  }

  lemma {:induction false} DispatchChronicles(
    replies: seq<Reply>, maxAttempts: nat, baseBackoffMs: nat, attempt: nat, attempts: seq<Record>, sleeps: seq<int>)
    requires 1 <= attempt <= maxAttempts <= |replies|
    requires |attempts| == |sleeps| == attempt - 1 && Chronicle(replies, maxAttempts, baseBackoffMs, attempts, sleeps)
    ensures Settled(replies, maxAttempts, baseBackoffMs,
      Dispatch(replies, maxAttempts, baseBackoffMs, attempt, attempts, sleeps))
    decreases maxAttempts - attempt
  {
    LastAttemptDecides(attempt, baseBackoffMs, replies[attempt - 1]);
    hide Judge, SummaryOf, Chronicle, Settled;
    var verdict := Judge(attempt, attempt < maxAttempts, baseBackoffMs, replies[attempt - 1]);
    ChronicleGrows(replies, maxAttempts, baseBackoffMs, attempts, sleeps, verdict);
    if verdict.record.decision == RETRY {
      DispatchChronicles(replies, maxAttempts, baseBackoffMs, attempt + 1, attempts + [verdict.record],
        sleeps + [verdict.delayMs]);
    } else {
      SettlesHere(replies, maxAttempts, baseBackoffMs, attempts, sleeps, verdict);
    }
  }

  /**
   Over every sequence of replies the loop returns, never through its trailing throw: all attempts but the last are
   retries, the last is not and decides how the call ends, and the summary adds up.
   */
  lemma DispatchReturns(replies: seq<Reply>, maxAttempts: nat, baseBackoffMs: nat)
    requires 1 <= maxAttempts <= |replies|
    ensures var o := Dispatch(replies, maxAttempts, baseBackoffMs, 1, [], []);
      && o.Returned? && 1 <= |o.attempts| <= maxAttempts
      && (forall i :: 0 <= i < |o.attempts| ==> (o.attempts[i].decision == RETRY <==> i < |o.attempts| - 1))
      && o.ending == Judge(|o.attempts|, |o.attempts| < maxAttempts, baseBackoffMs, replies[|o.attempts| - 1]).ending
      && o.summary.attempts == o.summary.retries + o.summary.dispatched + o.summary.noAction + o.summary.failedClosed
      && o.summary.retries == |o.sleeps| == |o.attempts| - 1
  {
    hide Judge;
    DispatchChronicles(replies, maxAttempts, baseBackoffMs, 1, [], []);
    var o := Dispatch(replies, maxAttempts, baseBackoffMs, 1, [], []);
    hide Dispatch;
    SummaryAddsUp(o.attempts);
    RetriesCounted(o.attempts);
  }

  lemma {:induction false} AllRetries(attempts: seq<Record>)
    requires forall i :: 0 <= i < |attempts| ==> attempts[i].decision == RETRY
    ensures CountDecision(attempts, RETRY) == |attempts|
  {
    if |attempts| > 0 {
      AllRetries(attempts[..|attempts| - 1]);
    }
  }

  lemma RetriesCounted(attempts: seq<Record>)
    requires |attempts| > 0
    requires forall i :: 0 <= i < |attempts| ==> (attempts[i].decision == RETRY <==> i < |attempts| - 1)
    ensures CountDecision(attempts, RETRY) == |attempts| - 1
  {
    AllRetries(attempts[..|attempts| - 1]);
  }

  /** A rate-limited reply that is retried although its body announces a long quota wait. */
  predicate RetriedAcrossQuota(reply: Reply) {
    && reply.Answered?
    && RateLimitCode(reply.status, reply.payload) == Some("RATE_LIMITED")
    && LongLivedQuotaStop("RATE_LIMITED", reply.payload)
  }

  /** A retried attempt sleeps beyond the local ceiling exactly when it is quota-marked and its hint does. */
  lemma LongSleepIffQuotaMarked(attempt: nat, more: bool, baseBackoffMs: nat, reply: Reply)
    requires Judge(attempt, more, baseBackoffMs, reply).record.decision == RETRY
    ensures var delay := Judge(attempt, more, baseBackoffMs, reply).delayMs;
      && 0 <= delay <= MAX_REPORTED_QUOTA_RETRY_DELAY_MS
      && (delay > MAX_RETRY_DELAY_MS <==>
        RetriedAcrossQuota(reply) && AsksLong(reply.header, reply.payload, reply.observedAt))
  {
    BackoffBounds(baseBackoffMs, attempt, reply.sample);
    hide BoundedBackoffMs, RetryHint, RateLimitCode;
    if reply.Answered? {
      HintBounds(reply.header, reply.payload, reply.observedAt, MAX_RETRY_DELAY_MS);
      HintBounds(reply.header, reply.payload, reply.observedAt, MAX_REPORTED_QUOTA_RETRY_DELAY_MS);
      var code := RateLimitCode(reply.status, reply.payload);
      if code.Some? {
        CodeIsKnown(reply.status, reply.payload);
      }
    }
  }

  const RATE_LIMIT_CODES := {
    "RATE_LIMITED", "WORKERS_AI_DAILY_QUOTA_EXHAUSTED", "WORKERS_AI_RATE_LIMITED", "PROVIDER_RATE_LIMITED"
  }

  /** The code of a classified reply is one of four. */
  lemma CodeIsKnown(status: int, p: Payload)
    requires RateLimitCode(status, p).Some?
    ensures RateLimitCode(status, p).value in RATE_LIMIT_CODES
  {
    FirstCodeIsKnown([p.providerStopReason, p.reason, p.error, p.code, p.status, p.stopReason, p.lastFailure]);
    hide FirstCode, BoundedRemediationDecision;
  }

  lemma {:induction false} FirstCodeIsKnown(texts: seq<Option<string>>)
    ensures FirstCode(texts).Some? ==> FirstCode(texts).value in RATE_LIMIT_CODES
  {
    if |texts| > 0 {
      FirstCodeIsKnown(texts[1..]);
    }
  }

  /** Without such a reply every sleep of every run stays within [0, 60000] ms. */
  lemma SleepsAreBounded(replies: seq<Reply>, maxAttempts: nat, baseBackoffMs: nat)
    requires 1 <= maxAttempts <= |replies|
    requires forall i :: 0 <= i < maxAttempts ==> !RetriedAcrossQuota(replies[i])
    ensures var o := Dispatch(replies, maxAttempts, baseBackoffMs, 1, [], []);
      o.Returned? && forall i :: 0 <= i < |o.sleeps| ==> 0 <= o.sleeps[i] <= MAX_RETRY_DELAY_MS
  {
    hide Judge, RetriedAcrossQuota;
    DispatchChronicles(replies, maxAttempts, baseBackoffMs, 1, [], []);
    var o := Dispatch(replies, maxAttempts, baseBackoffMs, 1, [], []);
    forall i | 0 <= i < |o.sleeps| ensures 0 <= o.sleeps[i] <= MAX_RETRY_DELAY_MS {
      LongSleepIffQuotaMarked(i + 1, i + 1 < maxAttempts, baseBackoffMs, replies[i]);
    }
  }

  /** With one it can fail: a reply classified RATE_LIMITED that also names the daily quota sleeps for 25 hours. */
  lemma QuotaMarkedReplySleepsLong(baseBackoffMs: nat)
    ensures var p :=
      Payload(None, Some("RATE_LIMITED"), None, None, None, Some("WORKERS_AI_DAILY_QUOTA_EXHAUSTED"), None,
        Absent, Absent, Absent, Absent, None, None);
      var verdict := Judge(1, true, baseBackoffMs, Answered(429, Seconds(100000.0), p, 0, None));
      verdict.record.decision == RETRY && verdict.delayMs == MAX_REPORTED_QUOTA_RETRY_DELAY_MS
  {
    var p := Payload(None, Some("RATE_LIMITED"), None, None, None, Some("WORKERS_AI_DAILY_QUOTA_EXHAUSTED"), None,
      Absent, Absent, Absent, Absent, None, None);
    var texts := [p.providerStopReason, p.reason, p.error, p.code, p.status, p.stopReason, p.lastFailure];
    assert texts[1..][0] == p.reason;
    assert FirstCode(texts) == FirstCode(texts[1..]) == Some("RATE_LIMITED");
    assert (100000.0 * 1000.0).Floor == 100000000;
  }
}
