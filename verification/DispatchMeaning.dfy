/**
 What the dispatch loop makes of the replies (scripts/autopilot-dispatch-retry.js), said by their own fields: which
 reply ends the call, and with what.
 */
module DispatchMeaning {
  import opened Prelude
  import opened RateLimit
  import opened RateLimitMeaning
  import opened Dispatch

  /** A reply that tells of no rate limit. */
  predicate IsPlain(reply: Reply) {
    reply.Answered? && !TellsRateLimit(reply.status, reply.payload)
  }

  /** The worker took the request. */
  predicate Accepts(reply: Reply) {
    && IsPlain(reply) && 200 <= reply.status <= 299
    && reply.payload.status in {Some("EXECUTION_ACCEPTED"), Some("EXECUTION_DISPATCHED")}
  }

  /** The worker has the request already. */
  predicate IsDuplicate(reply: Reply) {
    && IsPlain(reply) && 200 <= reply.status <= 299
    && reply.payload.status == Some("DUPLICATE_EXECUTION_SUPPRESSED")
  }

  /** The limit is the provider's, or the worker waits for it on its own. */
  predicate IsWaiting(reply: Reply) {
    && reply.Answered? && TellsRateLimit(reply.status, reply.payload)
    && (|| reply.payload.status in {
             Some("WAITING_RATE_LIMIT"), Some("BLOCKED_RATE_LIMIT"), Some("CODING_PROPOSAL_FAILED_CLOSED")}
        || RateLimitCode(reply.status, reply.payload)
             in {Some("PROVIDER_RATE_LIMITED"), Some("WORKERS_AI_RATE_LIMITED")})
  }

  /** The limit is the caller's own. */
  predicate IsBlocked(reply: Reply) {
    reply.Answered? && TellsRateLimit(reply.status, reply.payload) && !IsWaiting(reply)
  }

  /** Another attempt may do better: no token or network for now, a plain limit, or a server error. */
  predicate IsTransient(reply: Reply) {
    || (reply.OidcUnavailable? && reply.retryable)
    || reply.NetworkFailure?
    || (IsBlocked(reply) && RateLimitCode(reply.status, reply.payload) == Some("RATE_LIMITED"))
    || (IsPlain(reply) && 500 <= reply.status <= 599)
  }

  lemma KnownStatuses()
    ensures forall i :: 0 <= i < |"EXECUTION_ACCEPTED"| ==> IsStatusChar("EXECUTION_ACCEPTED"[i])
    ensures forall i :: 0 <= i < |"EXECUTION_DISPATCHED"| ==> IsStatusChar("EXECUTION_DISPATCHED"[i])
    ensures forall i :: 0 <= i < |"DUPLICATE_EXECUTION_SUPPRESSED"| ==>
      IsStatusChar("DUPLICATE_EXECUTION_SUPPRESSED"[i])
  {
  }

  /** The three statuses pass the filter, and nothing else turns into one of them. */
  lemma StatusPasses(status: Option<string>, known: string)
    requires known in {"EXECUTION_ACCEPTED", "EXECUTION_DISPATCHED", "DUPLICATE_EXECUTION_SUPPRESSED"}
    ensures SafeWorkerStatus(status) == known <==> status == Some(known)
  {
    KnownStatuses();
    hide IsStatusChar;
  }

  /** Whether a reply is followed by another attempt. */
  lemma RetriesIff(attempt: nat, more: bool, baseBackoffMs: nat, reply: Reply)
    ensures Judge(attempt, more, baseBackoffMs, reply).record.decision == RETRY <==> more && IsTransient(reply)
  {
    hide TellsRateLimit, RateLimitCode, BoundedBackoffMs, RetryHint, LongLivedQuotaStop, SafeWorkerStatus;
    if reply.Answered? {
      RateLimitIsTold(reply.status, reply.payload);
      LimitIsKnown(reply);
    }
  }

  lemma LimitIsKnown(reply: Reply)
    requires reply.Answered?
    ensures TellsRateLimit(reply.status, reply.payload) ==>
      RateLimitCode(reply.status, reply.payload).Some?
        && RateLimitCode(reply.status, reply.payload).value in RATE_LIMIT_CODES
    ensures reply.status == 429 ==> TellsRateLimit(reply.status, reply.payload)
  {
    hide RateLimitCode;
    RateLimitIsTold(reply.status, reply.payload);
    if RateLimitCode(reply.status, reply.payload).Some? {
      CodeIsKnown(reply.status, reply.payload);
    }
  }

  /** How a call ends whose last reply this is. */
  function EndingOf(reply: Reply): string {
    if Accepts(reply) then "DISPATCHED"
    else if IsDuplicate(reply) then "NO_ACTION"
    else if IsWaiting(reply) then "WAITING_RATE_LIMIT"
    else if IsBlocked(reply) then "BLOCKED_RATE_LIMIT"
    else "FAILED_CLOSED"
  }

  function DecisionOf(reply: Reply): Decision {
    if Accepts(reply) then DISPATCHED
    else if IsDuplicate(reply) || IsWaiting(reply) || IsBlocked(reply) then NO_ACTION
    else FAILED_CLOSED
  }

  lemma EndsAs(attempt: nat, more: bool, baseBackoffMs: nat, reply: Reply)
    requires Judge(attempt, more, baseBackoffMs, reply).record.decision != RETRY
    ensures var verdict := Judge(attempt, more, baseBackoffMs, reply);
      verdict.ending.status == EndingOf(reply) && verdict.record.decision == DecisionOf(reply)
  {
    hide TellsRateLimit, RateLimitCode, BoundedBackoffMs, RetryHint, LongLivedQuotaStop, SafeWorkerStatus;
    if reply.Answered? {
      RateLimitIsTold(reply.status, reply.payload);
      StatusPasses(reply.payload.status, "EXECUTION_ACCEPTED");
      StatusPasses(reply.payload.status, "EXECUTION_DISPATCHED");
      StatusPasses(reply.payload.status, "DUPLICATE_EXECUTION_SUPPRESSED");
    }
  }

  /**
   How a call goes, for every sequence of replies: it stops at the first reply that is not transient, or at the last
   allowed one; every earlier attempt is recorded as a retry, and the reply it stops at alone says how it ends.
   */
  lemma FirstLastingReplyDecides(replies: seq<Reply>, maxAttempts: nat, baseBackoffMs: nat)
    requires 1 <= maxAttempts <= |replies|
    ensures var o := Dispatch.Dispatch(replies, maxAttempts, baseBackoffMs, 1, [], []);
      && o.Returned? && 1 <= |o.attempts| <= maxAttempts
      && var n := |o.attempts|;
      && (forall i :: 0 <= i < n - 1 ==> IsTransient(replies[i]) && o.attempts[i].decision == RETRY)
      && (n == maxAttempts || !IsTransient(replies[n - 1]))
      && o.ending.status == EndingOf(replies[n - 1]) && o.attempts[n - 1].decision == DecisionOf(replies[n - 1])
  {
    hide Judge, IsTransient, EndingOf, DecisionOf;
    DispatchReturns(replies, maxAttempts, baseBackoffMs);
    DispatchChronicles(replies, maxAttempts, baseBackoffMs, 1, [], []);
    var o := Dispatch.Dispatch(replies, maxAttempts, baseBackoffMs, 1, [], []);
    var n := |o.attempts|;
    forall i | 0 <= i < n ensures o.attempts[i].decision == RETRY <==> i + 1 < maxAttempts && IsTransient(replies[i]) {
      RetriesIff(i + 1, i + 1 < maxAttempts, baseBackoffMs, replies[i]);
    }
    EndsAs(n, n < maxAttempts, baseBackoffMs, replies[n - 1]);
  }
}
