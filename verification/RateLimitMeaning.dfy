/**
 When a reply tells of a rate limit, by its own fields, and how long the backoff is
 (scripts/autopilot-dispatch-retry.js).
 */
module RateLimitMeaning {
  import opened Numbers
  import opened Prelude
  import opened RateLimit

  predicate NamesRateLimit(text: Option<string>) {
    text.Some? && text.value in {
      "WAITING_PROVIDER_CAPACITY", "RATE_LIMITED", "WORKERS_AI_DAILY_QUOTA_EXHAUSTED", "WORKERS_AI_RATE_LIMITED",
      "PROVIDER_RATE_LIMITED"}
  }

  /** The reply tells of a rate limit: by its status, by one of its texts, or by a decision to wait for the provider. */
  predicate TellsRateLimit(status: int, p: Payload) {
    || status == 429
    || NamesRateLimit(p.providerStopReason) || NamesRateLimit(p.reason) || NamesRateLimit(p.error)
    || NamesRateLimit(p.code) || NamesRateLimit(p.status) || NamesRateLimit(p.stopReason)
    || NamesRateLimit(p.lastFailure)
    || p.status == Some("WAITING_RATE_LIMIT") || p.status == Some("BLOCKED_RATE_LIMIT")
    || (p.remediation.Some? && BoundedRemediationDecision(p.remediation.value).Some?
        && p.remediation.value.failureClass == "PROVIDER_CAPACITY"
        && p.remediation.value.recovery == "WAIT_FOR_PROVIDER")
  }

  lemma {:induction false} FirstCodeIff(texts: seq<Option<string>>)
    ensures FirstCode(texts).Some? <==> exists i :: 0 <= i < |texts| && NamesRateLimit(texts[i])
    decreases |texts|
  {
    if |texts| > 0 {
      FirstCodeIff(texts[1..]);
      assert ProviderRateLimitCode(texts[0]).Some? <==> NamesRateLimit(texts[0]);
      hide NamesRateLimit, ProviderRateLimitCode;
      if i :| 0 <= i < |texts| && NamesRateLimit(texts[i]) {
        assert i > 0 ==> texts[1..][i - 1] == texts[i];
      }
    }
  }

  /**
   The decisions that are allowed: of the first attempt of one to three, and either no action on an unknown failure, a
   failure that stays closed, or a failure that may be repeated when it is transient or a rejected proposal.
   */
  lemma AllowedDecisionsIff(v: Remediation)
    ensures BoundedRemediationDecision(v).Some? <==>
      && v.attempt == 0 && 1 <= v.maxAttempts <= 3
      && v.recovery in {
           "STOP", "WAIT_FOR_PROVIDER", "RETRY_BOUNDED", "REGENERATE_PROPOSAL", "REDISPATCH_FRESH_EVIDENCE"}
      && (|| (v.outcome == "VALID_NO_ACTION" && v.failureClass == "UNKNOWN" && v.recovery == "STOP" && !v.retryable)
          || (v.outcome == "FAILED_CLOSED" && !v.retryable && (EndsWork(v.failureClass) ==> v.recovery == "STOP")
              && (EndsWork(v.failureClass) || MayBeRepeated(v.failureClass)))
          || (v.outcome == "FAILED_TO_REMEDIATE" && MayBeRepeated(v.failureClass)
              && (v.retryable && v.recovery == "REGENERATE_PROPOSAL" ==> v.failureClass == "PROPOSAL_REJECTED")
              && (v.retryable && v.recovery != "REGENERATE_PROPOSAL" ==>
                    && v.recovery == "RETRY_BOUNDED"
                    && (v.failureClass == "PROVIDER_FAILURE" || v.failureClass == "EVIDENCE_UNVERIFIED"))))
  {
  }

  predicate EndsWork(failureClass: string) {
    failureClass in {
      "AUDIT_BLOCKED", "RELEASE_BLOCKED", "DEPLOYMENT_FAILURE", "PERMISSION_FAILURE", "WORKFLOW_NOT_ELIGIBLE",
      "AUTHORITY_VIOLATION", "REQUEST_INVALID", "UNKNOWN"}
  }

  predicate MayBeRepeated(failureClass: string) {
    failureClass in {
      "EVIDENCE_UNVERIFIED", "EVIDENCE_MISMATCH", "PROVIDER_CAPACITY", "PROVIDER_FAILURE", "PROPOSAL_REJECTED"}
  }

  lemma DecisionIsItself(v: Remediation)
    ensures BoundedRemediationDecision(v).Some? ==> BoundedRemediationDecision(v) == Some(v)
  {
  }

  lemma RateLimitIsTold(status: int, p: Payload)
    ensures RateLimitCode(status, p).Some? <==> TellsRateLimit(status, p)
  {
    hide NamesRateLimit, FirstCode, BoundedRemediationDecision;
    var texts := [p.providerStopReason, p.reason, p.error, p.code, p.status, p.stopReason, p.lastFailure];
    FirstCodeIff(texts);
    assert texts[0] == p.providerStopReason && texts[1] == p.reason && texts[2] == p.error && texts[3] == p.code
      && texts[4] == p.status && texts[5] == p.stopReason && texts[6] == p.lastFailure;
    if p.remediation.Some? {
      DecisionIsItself(p.remediation.value);
    }
  }

  /** The code is that of the first text that names one; a wait for capacity counts as the provider's limit. */
  lemma {:induction false} FirstCodeIs(texts: seq<Option<string>>, i: nat)
    requires i < |texts| && NamesRateLimit(texts[i]) && forall j :: 0 <= j < i ==> !NamesRateLimit(texts[j])
    ensures FirstCode(texts) ==
      if texts[i] == Some("WAITING_PROVIDER_CAPACITY") then Some("PROVIDER_RATE_LIMITED") else texts[i]
    decreases |texts|
  {
    if i > 0 {
      assert !NamesRateLimit(texts[0]);
      assert ProviderRateLimitCode(texts[0]).None?;
      hide NamesRateLimit;
      assert forall j :: 0 <= j < |texts| - 1 ==> texts[1..][j] == texts[j + 1];
      FirstCodeIs(texts[1..], i - 1);
    }
  }

  /** The backoff of an attempt before jitter: doubled from attempt to attempt, a minute at most. */
  function PlainBackoff(base: nat, attempt: nat): nat {
    if attempt <= 1 then (if base < 60000 then base else 60000)
    else
      var before := PlainBackoff(base, attempt - 1);
      if 2 * before < 60000 then 2 * before else 60000
  }

  lemma {:induction false} PlainBackoffIsPower(base: nat, attempt: nat)
    ensures var raw := base * Pow2(if attempt >= 1 then attempt - 1 else 0);
      PlainBackoff(base, attempt) == if raw < 60000 then raw else 60000
  {
    if attempt > 1 {
      PlainBackoffIsPower(base, attempt - 1);
      Twice(base, Pow2(attempt - 2));
    }
  }

  lemma Twice(a: nat, b: nat)
    ensures a * (2 * b) == 2 * (a * b)
  {
  }

  lemma BackoffIsClamped(base: nat, attempt: nat, sample: Option<real>)
    ensures var delay := ClampRetryDelayMs(Jittered(PlainBackoff(base, attempt) as real, sample), 60000);
      BoundedBackoffMs(base, attempt, sample) == if delay.Some? then delay.value else 0
  {
    hide PlainBackoff, Pow2, ClampRetryDelayMs, Jittered;
    PlainBackoffIsPower(base, attempt);
  }

  lemma ClampIsNear(plain: nat, moved: real)
    requires plain <= 60000 && 0.9 * plain as real <= moved <= 1.1 * plain as real
    ensures var delay := ClampRetryDelayMs(moved, 60000);
      && delay.Some? && 0.9 * plain as real - 1.0 <= delay.value as real <= 1.1 * plain as real
      && (moved == plain as real ==> delay.value == plain)
  {
  }

  lemma {:induction false} PlainBackoffIsShort(base: nat, attempt: nat)
    ensures PlainBackoff(base, attempt) <= 60000
  {
  }

  lemma JitterIsATenth(base: real, sample: Option<real>)
    requires base >= 0.0
    ensures 0.9 * base <= Jittered(base, sample) <= 1.1 * base
    ensures sample.None? ==> Jittered(base, sample) == base
  {
    var normalized := if sample.Some? && 0.0 <= sample.value <= 1.0 then sample.value else 0.5;
    var factor := normalized * 2.0 - 1.0;
    var moved := factor * base;
    Shrinks(base, factor);
    assert -base <= moved <= base;
    assert Jittered(base, sample) == base + moved * 0.1;
  }

  /** Jitter moves the backoff by a tenth at most, rounding down; without a usable sample it stays as it is. */
  lemma BackoffIsJittered(base: nat, attempt: nat, sample: Option<real>)
    ensures var plain := PlainBackoff(base, attempt); var delay := BoundedBackoffMs(base, attempt, sample);
      && 0.9 * plain as real - 1.0 <= delay as real <= 1.1 * plain as real
      && (sample.None? ==> delay == plain)
  {
    hide PlainBackoff, Pow2, ClampRetryDelayMs, BoundedBackoffMs, Jittered;
    var plain := PlainBackoff(base, attempt);
    PlainBackoffIsShort(base, attempt);
    BackoffIsClamped(base, attempt, sample);
    JitterIsATenth(plain as real, sample);
    ClampIsNear(plain, Jittered(plain as real, sample));
  }

  lemma Shrinks(base: real, factor: real)
    requires base >= 0.0 && -1.0 <= factor <= 1.0
    ensures -base <= factor * base <= base
  {
    assert (1.0 - factor) * base >= 0.0 && (1.0 + factor) * base >= 0.0;
  }

  // ----- What a reply asks for -----

  /** The time a body or header names, in milliseconds from now: a number before 10^12 counts seconds. */
  function Until(value: TimeValue, observedAt: int): Option<real> {
    match value
    case Epoch(number) =>
      if number < 0.0 then None
      else Some((if number < 1000000000000.0 then number * 1000.0 else number) - observedAt as real)
    case DateText(ms) => Some((ms - observedAt) as real)
    case _ => None
  }

  /** The delays a reply names, the ones to prefer first: the header, the times of the body, its relative delay. */
  function NamedDelays(header: RetryAfter, p: Payload, observedAt: int): seq<Option<real>> {
    [if header.Seconds? then Some(header.seconds * 1000.0)
     else if header.HttpDate? then Until(DateText(header.ms), observedAt)
     else None,
     Until(p.retryAt, observedAt), Until(p.nextRetryAt, observedAt), Until(p.resetAt, observedAt),
     Until(p.resetTimestamp, observedAt), p.retryAfterMs]
  }

  predicate IsUsable(delay: Option<real>) {
    delay.Some? && delay.value >= 0.0
  }

  function FirstUsable(delays: seq<Option<real>>): Option<real> {
    if delays == [] then None else if IsUsable(delays[0]) then delays[0] else FirstUsable(delays[1..])
  }

  lemma {:induction false} FirstUsableIs(delays: seq<Option<real>>)
    ensures FirstUsable(delays).None? <==> forall i :: 0 <= i < |delays| ==> !IsUsable(delays[i])
    ensures FirstUsable(delays).Some? ==>
      exists i :: 0 <= i < |delays| && IsUsable(delays[i]) && FirstUsable(delays) == delays[i]
        && forall j :: 0 <= j < i ==> !IsUsable(delays[j])
  {
    if delays != [] && !IsUsable(delays[0]) {
      FirstUsableIs(delays[1..]);
      assert forall i :: 0 < i < |delays| ==> delays[i] == delays[1..][i - 1];
      if FirstUsable(delays).Some? {
        var i :| 0 <= i < |delays| - 1 && IsUsable(delays[1..][i]) && FirstUsable(delays) == delays[1..][i]
          && forall j :: 0 <= j < i ==> !IsUsable(delays[1..][j]);
        assert delays[i + 1] == delays[1..][i];
        assert forall j :: 0 <= j < i + 1 ==> !IsUsable(delays[j]);
      }
    }
  }

  lemma {:induction false} ClampOrNext(delay: Option<real>, maxMs: nat, rest: Option<int>)
    ensures var clamped := if delay.Some? then ClampRetryDelayMs(delay.value, maxMs) else None;
      FirstOf(clamped, rest) == if IsUsable(delay) then Some(Capped(delay.value, maxMs)) else rest
  {
  }

  /** Whole milliseconds, at most the ceiling. */
  function Capped(delay: real, maxMs: nat): int {
    if delay.Floor < maxMs then delay.Floor else maxMs
  }

  /** The hint of a reply is the first usable delay it names, in whole milliseconds and under its ceiling. */
  lemma HintIsFirstUsable(header: RetryAfter, p: Payload, observedAt: int, maxMs: nat)
    ensures var delay := FirstUsable(NamedDelays(header, p, observedAt));
      RetryHint(header, p, observedAt, maxMs) == if delay.Some? then Some(Capped(delay.value, maxMs)) else None
  {
    hide IsUsable, FirstOf, ClampRetryDelayMs, Capped;
    var delays := NamedDelays(header, p, observedAt);
    var none: Option<int> := None;
    var relative := if p.retryAfterMs.Some? then ClampRetryDelayMs(p.retryAfterMs.value, maxMs) else None;
    LastChoice(relative);
    ClampOrNext(p.retryAfterMs, maxMs, none);
    ClampsUntil(p.resetTimestamp, observedAt, maxMs, relative);
    var fourth := FirstOf(RetryTimestampMs(p.resetTimestamp, observedAt, maxMs), relative);
    ClampsUntil(p.resetAt, observedAt, maxMs, fourth);
    var third := FirstOf(RetryTimestampMs(p.resetAt, observedAt, maxMs), fourth);
    ClampsUntil(p.nextRetryAt, observedAt, maxMs, third);
    var second := FirstOf(RetryTimestampMs(p.nextRetryAt, observedAt, maxMs), third);
    ClampsUntil(p.retryAt, observedAt, maxMs, second);
    var first := FirstOf(RetryTimestampMs(p.retryAt, observedAt, maxMs), second);
    SixDelays(delays);
    HintUnfolds(header, p, observedAt, maxMs, first);
    NoChoice(first);
    NoneIsUnusable();
    match header
    case HttpDate(ms) =>
      ClampsUntil(DateText(ms), observedAt, maxMs, first);
    case Seconds(seconds) =>
      SecondsCase(seconds, maxMs);
    case _ =>
  }

  lemma SecondsCase(seconds: real, maxMs: nat)
    ensures IsUsable(Some(seconds * 1000.0)) <==> seconds >= 0.0
    ensures seconds >= 0.0 ==>
      ClampRetryDelayMs(seconds * 1000.0, maxMs) == Some(Capped(seconds * 1000.0, maxMs))
  {
  }

  lemma NoneIsUnusable()
    ensures !IsUsable(None)
  {
  }

  lemma LastChoice(hint: Option<int>)
    ensures FirstOf(hint, None) == hint
  {
  }

  lemma NoChoice(hint: Option<int>)
    ensures FirstOf(None, hint) == hint
  {
  }

  lemma ClampsUntil(value: TimeValue, observedAt: int, maxMs: nat, rest: Option<int>)
    ensures var delay := Until(value, observedAt);
      FirstOf(RetryTimestampMs(value, observedAt, maxMs), rest) ==
        if IsUsable(delay) then Some(Capped(delay.value, maxMs)) else rest
  {
  }

  lemma FromThere(delays: seq<Option<real>>, k: nat)
    requires k <= |delays|
    ensures FirstUsable(delays[k..]) ==
      if k == |delays| then None else if IsUsable(delays[k]) then delays[k] else FirstUsable(delays[k + 1..])
  {
    if k < |delays| {
      assert delays[k..][1..] == delays[k + 1..];
    }
  }

  lemma SixDelays(delays: seq<Option<real>>)
    requires |delays| == 6
    ensures FirstUsable(delays) ==
      if IsUsable(delays[0]) then delays[0] else if IsUsable(delays[1]) then delays[1]
      else if IsUsable(delays[2]) then delays[2] else if IsUsable(delays[3]) then delays[3]
      else if IsUsable(delays[4]) then delays[4] else if IsUsable(delays[5]) then delays[5] else None
  {
    hide FirstUsable;
    assert delays[0..] == delays;
    FromThere(delays, 0);
    FromThere(delays, 1);
    FromThere(delays, 2);
    FromThere(delays, 3);
    FromThere(delays, 4);
    FromThere(delays, 5);
    FromThere(delays, 6);
  }

  lemma HintUnfolds(header: RetryAfter, p: Payload, observedAt: int, maxMs: nat, body: Option<int>)
    requires var relative := if p.retryAfterMs.Some? then ClampRetryDelayMs(p.retryAfterMs.value, maxMs) else None;
      body == FirstOf(RetryTimestampMs(p.retryAt, observedAt, maxMs),
        FirstOf(RetryTimestampMs(p.nextRetryAt, observedAt, maxMs),
          FirstOf(RetryTimestampMs(p.resetAt, observedAt, maxMs),
            FirstOf(RetryTimestampMs(p.resetTimestamp, observedAt, maxMs), relative))))
    ensures RetryHint(header, p, observedAt, maxMs) ==
      if header.Seconds? && header.seconds >= 0.0 then ClampRetryDelayMs(header.seconds * 1000.0, maxMs)
      else FirstOf(if header.HttpDate? then RetryTimestampMs(DateText(header.ms), observedAt, maxMs) else None, body)
  {
    hide FirstOf, RetryTimestampMs, ClampRetryDelayMs;
  }
}
