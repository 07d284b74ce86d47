/**
 How long the proposal loop sleeps (scripts/autopilot-dispatch-retry.js): never beyond the ceiling for reported quota
 waits, and beyond the local ceiling exactly when a retried reply carries a quota marker and a hint that long.
 */
module ProposalSleeps {
  import opened Prelude
  import opened RateLimit
  import opened ProposalLoop

  /** The reply makes the loop retry on a rate limit while attempts remain. */
  predicate RateLimitRetries(turn: Turn) {
    ProposalOf(turn).Fails? &&
    var e := ProposalOf(turn).error;
    && e.invalid.None?
    && !(e.decision.Some? && e.decision.value.outcome == "FAILED_CLOSED" && e.decision.value.recovery == "STOP")
    && !(e.workerStop && e.rateLimit.Some?)
    && LimitCode(e) == Some("RATE_LIMITED")
  }

  /** The reply says that the limit lasts until a provider quota resets. */
  predicate QuotaMarked(post: Post) {
    && post.Answered? && RateLimitCode(post.status, post.payload).Some?
    && LongLivedQuotaStop(RateLimitCode(post.status, post.payload).value, post.payload)
  }

  predicate RetriesAcrossQuota(turn: Turn) {
    RateLimitRetries(turn) && QuotaMarked(turn.post)
  }

  predicate LongHint(turn: Turn) {
    turn.post.Answered? && AsksLong(turn.post.header, turn.post.payload, turn.post.observedAt)
  }

  /** What an attempt appends to the journal. */
  ghost predicate Extends(before: seq<Act>, after: seq<Act>) {
    before <= after
  }

  /** The attempt sleeps, for longer than a minute. */
  ghost predicate SleepsLong(before: seq<Act>, after: seq<Act>) {
    exists i :: |before| <= i < |after| && after[i].Sleeping? && after[i].ms > MAX_RETRY_DELAY_MS
  }

  ghost predicate SleepsWithin(acts: seq<Act>, from: nat, limit: int) {
    forall i :: from <= i < |acts| && acts[i].Sleeping? ==> 0 <= acts[i].ms <= limit
  }

  /** The delay of a rate-limit retry: the hint of the evidence, or the backoff. */
  function RetryDelay(e: WorkerError, attempt: nat, sample: Option<real>): int {
    if e.rateLimit.Some? && e.rateLimit.value.retryAfterMs.Some? then e.rateLimit.value.retryAfterMs.value
    else BoundedBackoffMs(DEFAULT_BACKOFF_MS, attempt, sample)
  }

  /** The evidence of an error is that of the reply. */
  lemma EvidenceOfReply(turn: Turn)
    requires ProposalOf(turn).Fails? && ProposalOf(turn).error.rateLimit.Some?
    ensures turn.post.Answered?
    ensures ProposalOf(turn).error.rateLimit ==
      RateLimitEvidence(turn.post.status, turn.post.header, turn.post.payload, turn.post.observedAt)
  {
    hide RateLimitEvidence, WorkerStops, BoundedRemediationDecision;
  }

  lemma RetryDelayBounds(turn: Turn, attempt: nat)
    requires RateLimitRetries(turn)
    ensures var delay := RetryDelay(ProposalOf(turn).error, attempt, turn.sample);
      && 0 <= delay <= MAX_REPORTED_QUOTA_RETRY_DELAY_MS
      && (delay > MAX_RETRY_DELAY_MS <==> QuotaMarked(turn.post) && LongHint(turn))
  {
    hide BoundedBackoffMs, RetryHint, RateLimitCode, LongLivedQuotaStop, ProposalOf, LimitCode;
    BackoffBounds(DEFAULT_BACKOFF_MS, attempt, turn.sample);
    var post := turn.post;
    if ProposalOf(turn).error.rateLimit.Some? {
      EvidenceOfReply(turn);
      HintBounds(post.header, post.payload, post.observedAt, MAX_RETRY_DELAY_MS);
      HintBounds(post.header, post.payload, post.observedAt, MAX_REPORTED_QUOTA_RETRY_DELAY_MS);
    } else {
      NoEvidenceNoMark(turn);
    }
  }

  /** A failed reply without evidence carries no quota mark. */
  lemma NoEvidenceNoMark(turn: Turn)
    requires RateLimitRetries(turn) && ProposalOf(turn).error.rateLimit.None?
    ensures !QuotaMarked(turn.post)
  {
    hide RateLimitCode, LongLivedQuotaStop, RetryHint, WorkerStops, BoundedRemediationDecision, LimitCode;
  }

  /** Appending one proposal and at most one sleep. */
  lemma OneSleep(before: seq<Act>, asked: Act, ms: int)
    requires asked.Proposed?
    ensures var after := before + [asked] + [Sleeping(ms)];
      && Extends(before, after)
      && (SleepsLong(before, after) <==> ms > MAX_RETRY_DELAY_MS)
      && (forall limit :: 0 <= ms <= limit ==> SleepsWithin(after, |before|, limit))
  {
    var after := before + [asked] + [Sleeping(ms)];
    assert after[|before| + 1] == Sleeping(ms);
  }

  /** What was appended to `before` holds no sleep beyond `limit`. */
  ghost predicate Grows(before: seq<Act>, after: seq<Act>, limit: int) {
    Extends(before, after) && SleepsWithin(after, |before|, limit)
  }

  lemma ShortIsNotLong(before: seq<Act>, after: seq<Act>)
    requires Grows(before, after, MAX_RETRY_DELAY_MS)
    ensures !SleepsLong(before, after) && Grows(before, after, MAX_REPORTED_QUOTA_RETRY_DELAY_MS)
  {
  }

  lemma GrowsByOne(before: seq<Act>, after: seq<Act>, act: Act)
    requires Grows(before, after, MAX_RETRY_DELAY_MS)
    requires act.Sleeping? ==> 0 <= act.ms <= MAX_RETRY_DELAY_MS
    ensures Grows(before, after + [act], MAX_RETRY_DELAY_MS)
  {
  }

  lemma ErrorSleepsShort(before: seq<Act>, s: State, k: nat, maxAttempts: nat, e: WorkerError, sample: Option<real>)
    requires Grows(before, s.journal, MAX_RETRY_DELAY_MS)
    requires !(k < maxAttempts && e.invalid.None?
      && !(e.decision.Some? && e.decision.value.outcome == "FAILED_CLOSED" && e.decision.value.recovery == "STOP")
      && !(e.workerStop && e.rateLimit.Some?) && LimitCode(e) == Some("RATE_LIMITED"))
    ensures Grows(before, OnProposalError(s, k, maxAttempts, e, sample).state.journal, MAX_RETRY_DELAY_MS)
  {
    hide Grows, BoundedBackoffMs, LimitCode, RemediationCode, RetryableProposalFailureCode;
    var delay := BoundedBackoffMs(DEFAULT_BACKOFF_MS, k, sample);
    BackoffBounds(DEFAULT_BACKOFF_MS, k, sample);
    GrowsByOne(before, s.journal, Sleeping(delay));
  }

  lemma PatchSleepsNot(before: seq<Act>, s: State, k: nat, maxAttempts: nat, turn: Turn, patch: string)
    requires Grows(before, s.journal, MAX_RETRY_DELAY_MS)
    ensures Grows(before, OnPatch(s, k, maxAttempts, turn, patch).state.journal, MAX_RETRY_DELAY_MS)
  {
    hide Grows, RetryableProposalFailureCode, IsApplyCheck;
    GrowsByOne(before, s.journal, Validating(k, patch));
    if turn.validation.Validated? {
      GrowsByOne(before, s.journal + [Validating(k, patch)], Publishing(k, turn.validation.files));
    }
  }

  /** An attempt that does not retry on a rate limit sleeps within the local ceiling, if at all. */
  lemma OtherwiseShort(s: State, k: nat, maxAttempts: nat, turn: Turn)
    requires !(RateLimitRetries(turn) && k < maxAttempts)
    ensures Grows(s.journal, Attempt(s, k, maxAttempts, turn).state.journal, MAX_RETRY_DELAY_MS)
  {
    hide Grows, OnProposalError, OnPatch, ProposalOf, LimitCode;
    var asked := Did(s, Proposed(k, s.feedback, s.context));
    GrowsFromItself(s.journal);
    GrowsByOne(s.journal, s.journal, Proposed(k, s.feedback, s.context));
    match ProposalOf(turn)
    case Abstains(_) =>
    case Fails(error) => ErrorSleepsShort(s.journal, asked, k, maxAttempts, error, turn.sample);
    case Ready(patch) => PatchSleepsNot(s.journal, asked, k, maxAttempts, turn, patch);
  }

  lemma GrowsFromItself(journal: seq<Act>)
    ensures Grows(journal, journal, MAX_RETRY_DELAY_MS)
  {
  }

  /**
   One attempt, whatever the reply: it sleeps longer than a minute exactly when attempts remain and a reply retried on a
   rate limit carries a quota marker and a hint that long; and never longer than the ceiling of reported quota waits.
   */
  lemma LongSleepIffQuotaMarked(s: State, k: nat, maxAttempts: nat, turn: Turn)
    ensures var after := Attempt(s, k, maxAttempts, turn).state.journal;
      && Grows(s.journal, after, MAX_REPORTED_QUOTA_RETRY_DELAY_MS)
      && (SleepsLong(s.journal, after) <==> k < maxAttempts && RetriesAcrossQuota(turn) && LongHint(turn))
      && (!SleepsLong(s.journal, after) ==> Grows(s.journal, after, MAX_RETRY_DELAY_MS))
  {
    hide Attempt, QuotaMarked, LongHint, LimitCode, ProposalOf, SleepsLong, SleepsWithin;
    if RateLimitRetries(turn) && k < maxAttempts {
      var e := ProposalOf(turn).error;
      RetryDelayBounds(turn, k);
      RetrySleeps(s, k, maxAttempts, turn);
      OneSleep(s.journal, Proposed(k, s.feedback, s.context), RetryDelay(e, k, turn.sample));
    } else {
      OtherwiseShort(s, k, maxAttempts, turn);
      ShortIsNotLong(s.journal, Attempt(s, k, maxAttempts, turn).state.journal);
    }
  }

  lemma RetrySleeps(s: State, k: nat, maxAttempts: nat, turn: Turn)
    requires RateLimitRetries(turn) && k < maxAttempts
    ensures Attempt(s, k, maxAttempts, turn).state.journal ==
      s.journal + [Proposed(k, s.feedback, s.context)] + [Sleeping(RetryDelay(ProposalOf(turn).error, k, turn.sample))]
  {
    hide BoundedBackoffMs, ProposalOf, LimitCode;
  }

  lemma {:induction false} RunSleeps(s: State, k: nat, maxAttempts: nat, turns: seq<Turn>, limit: int)
    requires 1 <= k && maxAttempts <= |turns|
    requires limit == MAX_REPORTED_QUOTA_RETRY_DELAY_MS ||
      (limit == MAX_RETRY_DELAY_MS && forall i :: 0 <= i < maxAttempts ==> !RetriesAcrossQuota(turns[i]))
    requires SleepsWithin(s.journal, 0, limit)
    ensures SleepsWithin(Run(s, k, maxAttempts, turns).state.journal, 0, limit)
    decreases maxAttempts + 1 - k
  {
    hide Attempt, RetriesAcrossQuota, LongHint, SleepsLong;
    if k <= maxAttempts {
      LongSleepIffQuotaMarked(s, k, maxAttempts, turns[k - 1]);
      var p := Attempt(s, k, maxAttempts, turns[k - 1]);
      assert forall i :: 0 <= i < |s.journal| ==> p.state.journal[i] == s.journal[i];
      RunSleeps(p.state, k + 1, maxAttempts, turns, limit);
    }
  }

  /**
   Over every run: sleeps within the reported ceiling, and within a minute when no reply is retried across a quota.
   */
  lemma SleepsAreBounded(turns: seq<Turn>, maxAttempts: nat, context: Option<string>)
    requires 1 <= maxAttempts <= |turns|
    ensures var journal := Run(Start(context), 1, maxAttempts, turns).state.journal;
      && SleepsWithin(journal, 0, MAX_REPORTED_QUOTA_RETRY_DELAY_MS)
      && ((forall i :: 0 <= i < maxAttempts ==> !RetriesAcrossQuota(turns[i])) ==>
        SleepsWithin(journal, 0, MAX_RETRY_DELAY_MS))
  {
    hide Run, RetriesAcrossQuota;
    RunSleeps(Start(context), 1, maxAttempts, turns, MAX_REPORTED_QUOTA_RETRY_DELAY_MS);
    if forall i :: 0 <= i < maxAttempts ==> !RetriesAcrossQuota(turns[i]) {
      RunSleeps(Start(context), 1, maxAttempts, turns, MAX_RETRY_DELAY_MS);
    }
  }

  /** A reply that is retried after 25 hours: too many requests, a quota marker, and a long Retry-After. */
  function QuotaReply(): Turn {
    var p := Payload(None, None, Some("RATE_LIMITED"), None, None, Some("WORKERS_AI_DAILY_QUOTA_EXHAUSTED"), None,
      Absent, Absent, Absent, Absent, None, None);
    Turn(Answered(429, Seconds(100000.0), p, None, 0), true, Rejected(""), NotAccepted, None, None)
  }

  lemma QuotaReplyFails()
    ensures var p := QuotaReply().post.payload;
      && RateLimitCode(429, p) == Some("RATE_LIMITED") && LongLivedQuotaStop("RATE_LIMITED", p)
  {
    var p := QuotaReply().post.payload;
    var texts := [p.providerStopReason, p.reason, p.error, p.code, p.status, p.stopReason, p.lastFailure];
    assert texts[1..][0] == p.reason && texts[1..][1..][0] == p.error;
    assert FirstCode(texts) == FirstCode(texts[1..]) == FirstCode(texts[1..][1..]) == Some("RATE_LIMITED");
  }

  lemma QuotaReplySleepsLong(s: State, maxAttempts: nat)
    requires maxAttempts > 1
    ensures Attempt(s, 1, maxAttempts, QuotaReply()).step == Continue
    ensures Attempt(s, 1, maxAttempts, QuotaReply()).state.journal ==
      s.journal + [Proposed(1, s.feedback, s.context)] + [Sleeping(MAX_REPORTED_QUOTA_RETRY_DELAY_MS)]
  {
    hide RateLimitCode, LongLivedQuotaStop, BoundedBackoffMs;
    QuotaReplyFails();
    assert (100000.0 * 1000.0).Floor == 100000000;
  }
}
