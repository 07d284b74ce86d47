/**
 What the proposal loop makes of a worker's reply (scripts/autopilot-dispatch-retry.js), said by the reply's own fields:
 which replies carry a proposal, which patches a run validates and publishes, and which attempts are followed by
 another.
 */
module ProposalMeaning {
  import opened Prelude
  import opened Text
  import opened RateLimit
  import opened RateLimitMeaning
  import opened ProposalLoop
  import opened ProposalLoopLaws

  // ----- Replies -----

  /** A successful answer without a rate limit that says it is a ready proposal, with a patch and a valid receipt. */
  predicate IsReady(turn: Turn, patch: string) {
    && turn.post.Answered? && 200 <= turn.post.status <= 299
    && !TellsRateLimit(turn.post.status, turn.post.payload)
    && turn.post.payload.status == Some("PROPOSAL_READY")
    && turn.post.patch == Some(patch) && turn.receiptValid
  }

  lemma ReadyIff(turn: Turn, patch: string)
    ensures ProposalOf(turn) == Ready(patch) <==> IsReady(turn, patch)
  {
    hide TellsRateLimit, RateLimitCode, LongLivedQuotaStop, RetryHint, WorkerStops, BoundedRemediationDecision,
      SafeWorkerStatus, DiagnosticClass, Decimal, AbstentionReason;
    if turn.post.Answered? {
      RateLimitIsTold(turn.post.status, turn.post.payload);
    }
  }

  /** The routing declined: a successful answer without a rate limit that says so. */
  lemma AbstainsIff(turn: Turn)
    ensures ProposalOf(turn).Abstains? <==>
      && turn.post.Answered? && 200 <= turn.post.status <= 299
      && !TellsRateLimit(turn.post.status, turn.post.payload)
      && turn.post.payload.status == Some("JEV_ROUTING_ABSTAINED")
  {
    hide TellsRateLimit, RateLimitCode, LongLivedQuotaStop, RetryHint, WorkerStops, BoundedRemediationDecision,
      SafeWorkerStatus, DiagnosticClass, Decimal, AbstentionReason;
    if turn.post.Answered? {
      RateLimitIsTold(turn.post.status, turn.post.payload);
    }
  }

  /** The worker says that it stops for the rate limit on its own. */
  predicate SaysItStops(p: Payload) {
    || p.status == Some("WAITING_RATE_LIMIT") || p.status == Some("BLOCKED_RATE_LIMIT")
    || p.error == Some("WAITING_PROVIDER_CAPACITY")
    || (p.status == Some("CODING_PROPOSAL_FAILED_CLOSED") && p.providerStopReason.Some?)
  }

  /** What the error of a refused or rate-limited answer says. */
  lemma ErrorTellsReply(post: Post)
    requires post.Answered?
    ensures var p := post.payload; var ok := 200 <= post.status <= 299; var limited := TellsRateLimit(post.status, p);
      var bounded := p.remediation.Some? && BoundedRemediationDecision(p.remediation.value).Some?;
      && (PostError(post).Some? <==> !ok || limited)
      && (PostError(post).Some? ==>
            var e := PostError(post).value;
            && (e.invalid.Some? <==> !ok && p.remediation.Some? && !bounded)
            && e.decision == (if !ok && bounded then p.remediation else None)
            && (e.invalid.None? ==> (e.rateLimit.Some? <==> limited) && (e.workerStop <==> limited && SaysItStops(p))))
  {
    hide TellsRateLimit, RateLimitCode, LongLivedQuotaStop, RetryHint, BoundedRemediationDecision, SafeWorkerStatus,
      DiagnosticClass, Decimal;
    RateLimitIsTold(post.status, post.payload);
    if post.payload.remediation.Some? {
      DecisionIsItself(post.payload.remediation.value);
    }
  }

  /** Every other reply is a failure: not sent, refused or limited as above, not a proposal, or without its receipt. */
  lemma OtherRepliesFail(turn: Turn)
    ensures turn.post.NotSent? ==> ProposalOf(turn) == Fails(PlainError(turn.post.failure))
    ensures
      (&& turn.post.Answered? && 200 <= turn.post.status <= 299
       && !TellsRateLimit(turn.post.status, turn.post.payload)
       && turn.post.payload.status != Some("JEV_ROUTING_ABSTAINED")) ==>
      ProposalOf(turn) ==
        if turn.post.payload.status != Some("PROPOSAL_READY") || turn.post.patch.None?
        then Fails(PlainError("CODING_PROPOSAL_UNAVAILABLE"))
        else if !turn.receiptValid then Fails(PlainError("CAUSAL_PROPOSAL_RECEIPT_REQUIRED"))
        else Ready(turn.post.patch.value)
  {
    hide TellsRateLimit, RateLimitCode, LongLivedQuotaStop, RetryHint, WorkerStops, BoundedRemediationDecision,
      SafeWorkerStatus, DiagnosticClass, Decimal, AbstentionReason;
    if turn.post.Answered? {
      RateLimitIsTold(turn.post.status, turn.post.payload);
    }
  }

  /** A failure reason asks for a new patch when it is a listed code, or a listed sandbox code with details. */
  lemma ListedIff(reason: string, code: string)
    ensures RetryableProposalFailureCode(reason) == Some(code) <==>
      && code in RETRYABLE_PROPOSAL_FAILURE_CODES && ':' !in code
      && (reason == code || ("SANDBOX_" <= code && code + ":" <= reason))
  {
    hide RETRYABLE_PROPOSAL_FAILURE_CODES;
    UpToColonHasNone(reason);
    if ':' !in code {
      UpToColonIff(reason, code);
    }
  }

  lemma {:induction false} UpToColonHasNone(s: string)
    ensures ':' !in UpToColon(s)
  {
    if |s| > 0 && s[0] != ':' {
      UpToColonHasNone(s[1..]);
    }
  }

  lemma {:induction false} UpToColonIff(s: string, head: string)
    requires ':' !in head
    ensures UpToColon(s) == head <==> s == head || head + ":" <= s
  {
    if |s| > 0 && s[0] != ':' && |head| > 0 {
      UpToColonIff(s[1..], head[1..]);
      var rest := head[1..] + ":";
      assert head + ":" == [head[0]] + rest;
      assert head == [head[0]] + head[1..] && s == [s[0]] + s[1..];
      assert head + ":" <= s <==> head[0] == s[0] && rest <= s[1..];
    } else if |s| > 0 && s[0] == ':' && |head| > 0 {
      assert (head + ":")[0] == head[0];
    }
  }

  // ----- What a run validates and publishes -----

  /** Attempt `k` got a ready reply with this patch. */
  predicate ReadyAt(turns: seq<Turn>, k: nat, patch: string) {
    1 <= k <= |turns| && IsReady(turns[k - 1], patch)
  }

  /** Attempt `k` is the first to bring this patch in a ready reply. */
  ghost predicate FirstReady(turns: seq<Turn>, k: nat, patch: string) {
    ReadyAt(turns, k, patch) && forall j: nat :: j < k ==> !ReadyAt(turns, j, patch)
  }

  /** Attempt `k` is the first to bring a patch that was validated, with these files. */
  ghost predicate FirstValid(turns: seq<Turn>, k: nat, files: seq<string>) {
    && 1 <= k <= |turns| && turns[k - 1].validation == Validated(files)
    && turns[k - 1].post.Answered? && turns[k - 1].post.patch.Some?
    && FirstReady(turns, k, turns[k - 1].post.patch.value)
  }

  /**
   After `n` attempts exactly the patches first brought by ready replies were validated, and those with files published.
   */
  ghost predicate JournalTells(turns: seq<Turn>, journal: seq<Act>, n: nat) {
    && (forall k: nat, patch: string :: Validating(k, patch) in journal <==> k <= n && FirstReady(turns, k, patch))
    && (forall k: nat, files: seq<string> :: Publishing(k, files) in journal <==> k <= n && FirstValid(turns, k, files))
  }

  /** The patches seen are those of the ready replies before attempt `k`. */
  ghost predicate SeenAreReady(turns: seq<Turn>, seen: set<string>, k: nat) {
    forall patch :: patch in seen <==> exists j: nat :: j < k && ReadyAt(turns, j, patch)
  }

  /** What an attempt adds to the journal after asking. */
  function ActsOf(s: State, k: nat, turn: Turn): seq<Act> {
    match ProposalOf(turn)
    case Ready(patch) =>
      if patch in s.seenPatches then []
      else if turn.validation.Rejected? then [Validating(k, patch)]
      else [Validating(k, patch), Publishing(k, turn.validation.files)]
    case _ => []
  }

  lemma RejectedActs(s: State, k: nat, maxAttempts: nat, turn: Turn, reason: string)
    ensures OnRejectedPatch(s, k, maxAttempts, turn, reason).state.journal == s.journal
    ensures OnRejectedPatch(s, k, maxAttempts, turn, reason).state.seenPatches == s.seenPatches
  {
    hide RetryableProposalFailureCode, IsApplyCheck;
  }

  lemma PatchActs(s: State, k: nat, maxAttempts: nat, turn: Turn, patch: string)
    requires ProposalOf(turn) == Ready(patch)
    ensures var p := OnPatch(s, k, maxAttempts, turn, patch);
      && p.state.journal == s.journal + ActsOf(s, k, turn)
      && (p.step.Continue? ==> patch !in s.seenPatches && turn.validation.Rejected?)
      && (patch !in s.seenPatches ==> p.state.seenPatches == s.seenPatches + {patch})
  {
    hide OnRejectedPatch, ProposalOf;
    var validating := Did(s.(seenPatches := s.seenPatches + {patch}), Validating(k, patch));
    if turn.validation.Rejected? {
      RejectedActs(validating, k, maxAttempts, turn, turn.validation.reason);
    } else {
      assert s.journal + [Validating(k, patch)] + [Publishing(k, turn.validation.files)] ==
        s.journal + [Validating(k, patch), Publishing(k, turn.validation.files)];
    }
  }

  lemma ErrorActs(s: State, k: nat, maxAttempts: nat, e: WorkerError, sample: Option<real>)
    ensures var p := OnProposalError(s, k, maxAttempts, e, sample);
      && p.state.seenPatches == s.seenPatches
      && (p.state.journal == s.journal || exists ms :: p.state.journal == s.journal + [Sleeping(ms)])
  {
    hide BoundedBackoffMs, LimitCode, RemediationCode, RetryableProposalFailureCode;
  }

  /** An attempt adds its question, its validation and publication, and perhaps a sleep. */
  lemma AttemptActs(s: State, k: nat, maxAttempts: nat, turn: Turn)
    ensures var p := Attempt(s, k, maxAttempts, turn);
      var asked := s.journal + [Proposed(k, s.feedback, s.context)] + ActsOf(s, k, turn);
      && (p.state.journal == asked || exists ms :: p.state.journal == asked + [Sleeping(ms)])
      && p.state.seenPatches ==
           (if ProposalOf(turn).Ready? then s.seenPatches + {ProposalOf(turn).patch} else s.seenPatches)
      && (p.step.Continue? && ProposalOf(turn).Ready? ==>
            ProposalOf(turn).patch !in s.seenPatches && turn.validation.Rejected?)
  {
    hide OnPatch, OnProposalError, ProposalOf;
    var asked := Did(s, Proposed(k, s.feedback, s.context));
    assert asked.journal + [] == asked.journal;
    match ProposalOf(turn)
    case Abstains(_) =>
    case Fails(error) => ErrorActs(asked, k, maxAttempts, error, turn.sample);
    case Ready(patch) =>
      PatchActs(asked, k, maxAttempts, turn, patch);
      RepeatedPatchStays(asked, k, maxAttempts, turn, patch);
  }

  lemma RepeatedPatchStays(s: State, k: nat, maxAttempts: nat, turn: Turn, patch: string)
    ensures patch in s.seenPatches ==>
      OnPatch(s, k, maxAttempts, turn, patch).state.seenPatches == s.seenPatches + {patch}
  {
    hide OnRejectedPatch, OnValidatedPatch;
    assert patch in s.seenPatches ==> s.seenPatches + {patch} == s.seenPatches;
  }

  lemma ActsJoin(a: seq<Act>, b: seq<Act>, act: Act)
    ensures act in a + b <==> act in a || act in b
  {
  }

  /** One attempt keeps the journal true to the replies. */
  lemma AttemptTells(turns: seq<Turn>, s: State, k: nat, maxAttempts: nat)
    requires 1 <= k <= |turns|
    requires JournalTells(turns, s.journal, k - 1) && SeenAreReady(turns, s.seenPatches, k)
    ensures var p := Attempt(s, k, maxAttempts, turns[k - 1]);
      && JournalTells(turns, p.state.journal, k)
      && SeenAreReady(turns, p.state.seenPatches, k + 1)
  {
    hide Attempt, ProposalOf, IsReady;
    var turn := turns[k - 1];
    var p := Attempt(s, k, maxAttempts, turn);
    AttemptActs(s, k, maxAttempts, turn);
    ReadyIsRead(turn);
    forall act: Act | act.Validating? || act.Publishing?
      ensures act in p.state.journal <==> act in s.journal || act in ActsOf(s, k, turn)
    {
      assert act in s.journal + [Proposed(k, s.feedback, s.context)] + ActsOf(s, k, turn) <==>
        act in s.journal || act in ActsOf(s, k, turn);
    }
    NewActs(turns, s, k);
  }

  /** The loop takes a reply for ready exactly when it is, with the patch it brings. */
  ghost predicate ReadsReady(turn: Turn) {
    && (ProposalOf(turn).Ready? ==> IsReady(turn, ProposalOf(turn).patch))
    && forall patch: string {:trigger IsReady(turn, patch)} :: IsReady(turn, patch) ==>
         ProposalOf(turn) == Ready(patch) && turn.post.Answered? && turn.post.patch == Some(patch)
  }

  lemma ReadyIsRead(turn: Turn)
    ensures ReadsReady(turn)
  {
    hide ProposalOf, TellsRateLimit;
    if ProposalOf(turn).Ready? {
      ReadyIff(turn, ProposalOf(turn).patch);
    }
    forall patch: string | IsReady(turn, patch) ensures ProposalOf(turn) == Ready(patch) {
      ReadyIff(turn, patch);
    }
  }

  /** The acts of attempt `k` are those its reply is first to call for. */
  lemma NewActs(turns: seq<Turn>, s: State, k: nat)
    requires 1 <= k <= |turns| && SeenAreReady(turns, s.seenPatches, k)
    requires ReadsReady(turns[k - 1])
    ensures forall j: nat, patch: string ::
      Validating(j, patch) in ActsOf(s, k, turns[k - 1]) <==> j == k && FirstReady(turns, k, patch)
    ensures forall j: nat, files: seq<string> ::
      Publishing(j, files) in ActsOf(s, k, turns[k - 1]) <==> j == k && FirstValid(turns, k, files)
  {
    hide ProposalOf, IsReady;
    var turn := turns[k - 1];
    match ProposalOf(turn)
    case Ready(patch) =>
      assert IsReady(turn, patch) && ReadyAt(turns, k, patch);
      assert FirstReady(turns, k, patch) <==> patch !in s.seenPatches;
      assert forall other: string :: FirstReady(turns, k, other) ==> other == patch;
      assert forall files: seq<string> ::
        FirstValid(turns, k, files) <==> patch !in s.seenPatches && turn.validation == Validated(files);
    case _ =>
      assert forall patch: string :: !IsReady(turn, patch);
  }

  lemma {:induction false} RunTells(turns: seq<Turn>, s: State, k: nat, maxAttempts: nat) returns (last: nat)
    requires 1 <= k <= maxAttempts <= |turns|
    requires JournalTells(turns, s.journal, k - 1) && SeenAreReady(turns, s.seenPatches, k) && Between(s, k)
    ensures k <= last <= maxAttempts
    ensures var p := Run(s, k, maxAttempts, turns);
      JournalTells(turns, p.state.journal, last) && Proposals(p.state.journal) == last
    decreases maxAttempts - k
  {
    hide Attempt, JournalTells, SeenAreReady, Between;
    AttemptTells(turns, s, k, maxAttempts);
    AttemptLeads(turns, maxAttempts, k, s);
    var p := Attempt(s, k, maxAttempts, turns[k - 1]);
    if p.step.Continue? {
      last := RunTells(turns, p.state, k + 1, maxAttempts);
    } else {
      last := k;
    }
  }

  lemma NothingTold(turns: seq<Turn>, context: Option<string>)
    ensures JournalTells(turns, [], 0) && SeenAreReady(turns, {}, 1)
  {
  }

  /**
   What a run validates and publishes, for every sequence of replies: of the attempts made, exactly the patches that a
   ready reply is the first to bring are validated, and exactly those whose validation returned files are published.
   No other reply leads to either.
   */
  lemma ReadyRepliesDecide(turns: seq<Turn>, maxAttempts: nat, context: Option<string>)
    requires 1 <= maxAttempts <= |turns|
    ensures var journal := Run(Start(context), 1, maxAttempts, turns).state.journal;
      && (forall k: nat, patch: string :: Validating(k, patch) in journal <==>
        k <= Proposals(journal) && FirstReady(turns, k, patch))
      && (forall k: nat, files: seq<string> :: Publishing(k, files) in journal <==>
        k <= Proposals(journal) && FirstValid(turns, k, files))
  {
    hide Run, FirstReady, FirstValid, SeenAreReady, Proposals;
    NothingTold(turns, context);
    StartIsBetween(context);
    var last := RunTells(turns, Start(context), 1, maxAttempts);
  }

  lemma StartIsBetween(context: Option<string>)
    ensures Between(Start(context), 1)
  {
  }

  // ----- Which attempts are followed by another -----

  ghost predicate BroughtBefore(turns: seq<Turn>, k: nat, patch: string) {
    exists j: nat :: j < k && ReadyAt(turns, j, patch)
  }

  /** The patches that ready replies brought before attempt `k`. */
  ghost function PatchesBefore(turns: seq<Turn>, k: nat): iset<string> {
    iset patch: string | BroughtBefore(turns, k, patch)
  }

  /** The codes for which a new patch was asked for by the first `n` records. */
  function CodesAskedFor(attempts: seq<Record>, n: nat): set<string>
    requires n <= |attempts|
  {
    set i | 0 <= i < n && IsCodeRetry(attempts[i]) :: attempts[i].reason
  }

  /** The reason lists a code that has not been asked about yet. */
  ghost predicate NamesNewCode(codes: set<string>, reason: string) {
    exists code ::
      && code in RETRYABLE_PROPOSAL_FAILURE_CODES && ':' !in code
      && (reason == code || ("SANDBOX_" <= code && code + ":" <= reason))
      && code !in codes
  }

  /** The error is final: an invalid decision, a decision to stop, or a worker that waits for the limit on its own. */
  predicate IsFinal(e: WorkerError) {
    || e.invalid.Some?
    || (e.decision.Some? && e.decision.value.outcome == "FAILED_CLOSED" && e.decision.value.recovery == "STOP")
    || (e.workerStop && e.rateLimit.Some?)
  }

  /** Why an error of attempt `k` may be followed by another attempt. */
  ghost predicate ErrorMayRetry(codes: set<string>, k: nat, e: WorkerError) {
    && !IsFinal(e)
    && if LimitCode(e).Some? then LimitCode(e).value == "RATE_LIMITED"
       else if e.decision.Some? then
         var d := e.decision.value;
         && d.outcome == "FAILED_TO_REMEDIATE" && d.retryable && k < d.maxAttempts
         && (d.failureClass == "PROPOSAL_REJECTED" ==> RemediationCode(e.reason) !in codes)
       else NamesNewCode(codes, e.reason)
  }

  /** Why attempt `k` may be followed by another: a new patch rejected for a new code, or an error that allows it. */
  ghost predicate MayRetry(patches: iset<string>, codes: set<string>, k: nat, turn: Turn) {
    match ProposalOf(turn)
    case Ready(patch) => patch !in patches && turn.validation.Rejected? && NamesNewCode(codes, turn.validation.reason)
    case Fails(e) => ErrorMayRetry(codes, k, e)
    case Abstains(_) => false
  }

  lemma NewCodeIff(codes: set<string>, reason: string)
    ensures NamesNewCode(codes, reason) <==>
      RetryableProposalFailureCode(reason).Some? && RetryableProposalFailureCode(reason).value !in codes
  {
    hide RETRYABLE_PROPOSAL_FAILURE_CODES, RetryableProposalFailureCode;
    if RetryableProposalFailureCode(reason).Some? {
      ListedIff(reason, RetryableProposalFailureCode(reason).value);
    }
    forall code: string | code in RETRYABLE_PROPOSAL_FAILURE_CODES && ':' !in code
        && (reason == code || ("SANDBOX_" <= code && code + ":" <= reason))
      ensures RetryableProposalFailureCode(reason) == Some(code)
    {
      ListedIff(reason, code);
    }
  }

  lemma ErrorContinuesIff(s: State, k: nat, maxAttempts: nat, e: WorkerError, sample: Option<real>)
    ensures OnProposalError(s, k, maxAttempts, e, sample).step.Continue? <==>
      k < maxAttempts && ErrorMayRetry(s.seenCodes, k, e)
  {
    hide NamesNewCode, BoundedBackoffMs, LimitCode, RemediationCode, RetryableProposalFailureCode;
    NewCodeIff(s.seenCodes, e.reason);
  }

  lemma PatchContinuesIff(s: State, k: nat, maxAttempts: nat, turn: Turn, patch: string)
    ensures OnPatch(s, k, maxAttempts, turn, patch).step.Continue? <==>
      && k < maxAttempts && patch !in s.seenPatches
      && turn.validation.Rejected? && NamesNewCode(s.seenCodes, turn.validation.reason)
  {
    hide NamesNewCode, RetryableProposalFailureCode, IsApplyCheck;
    if turn.validation.Rejected? {
      NewCodeIff(s.seenCodes, turn.validation.reason);
    }
  }

  lemma AttemptContinuesIff(s: State, k: nat, maxAttempts: nat, turn: Turn, patches: iset<string>)
    requires forall patch: string :: patch in patches <==> patch in s.seenPatches
    ensures Attempt(s, k, maxAttempts, turn).step.Continue? <==>
      k < maxAttempts && MayRetry(patches, s.seenCodes, k, turn)
  {
    hide NamesNewCode, OnPatch, OnProposalError, ProposalOf, ErrorMayRetry;
    var asked := Did(s, Proposed(k, s.feedback, s.context));
    match ProposalOf(turn)
    case Abstains(_) =>
    case Fails(e) => ErrorContinuesIff(asked, k, maxAttempts, e, turn.sample);
    case Ready(patch) => PatchContinuesIff(asked, k, maxAttempts, turn, patch);
  }

  /** The codes the loop remembers between attempts are those its records asked for. */
  ghost predicate CodesAreRecorded(s: State) {
    s.seenCodes == CodesAskedFor(s.attempts, |s.attempts|)
  }

  lemma RecordAdds(attempts: seq<Record>, r: Record)
    ensures CodesAskedFor(attempts + [r], |attempts| + 1) ==
      CodesAskedFor(attempts, |attempts|) + if IsCodeRetry(r) then {r.reason} else {}
  {
    hide IsCodeRetry;
    var all := attempts + [r];
    assert all[|attempts|] == r;
    assert forall i :: 0 <= i < |attempts| ==> all[i] == attempts[i];
    forall c ensures c in CodesAskedFor(all, |attempts| + 1) <==>
      c in CodesAskedFor(attempts, |attempts|) || (IsCodeRetry(r) && c == r.reason)
    {
      if IsCodeRetry(r) && c == r.reason {
        assert IsCodeRetry(all[|attempts|]);
      }
      if i :| 0 <= i < |attempts| && IsCodeRetry(attempts[i]) && attempts[i].reason == c {
        assert IsCodeRetry(all[i]);
      }
    }
  }

  lemma RejectCodeRecords(s: State, k: nat, maxAttempts: nat, code: string)
    requires CodesAreRecorded(s) && RejectCode(s, k, maxAttempts, code).step.Continue?
    ensures var after := RejectCode(s, k, maxAttempts, code).state;
      CodesAreRecorded(after) && s.attempts <= after.attempts && |after.attempts| == |s.attempts| + 1
  {
    hide CodesAskedFor;
    RecordAdds(s.attempts, Record(k, RETRY, "PROPOSAL_REJECTED", "deterministic", code));
  }

  lemma ErrorRecords(s: State, k: nat, maxAttempts: nat, e: WorkerError, sample: Option<real>)
    requires CodesAreRecorded(s) && OnProposalError(s, k, maxAttempts, e, sample).step.Continue?
    requires e.decision.Some? ==> BoundedRemediationDecision(e.decision.value).Some?
    ensures var after := OnProposalError(s, k, maxAttempts, e, sample).state;
      CodesAreRecorded(after) && s.attempts <= after.attempts && |after.attempts| == |s.attempts| + 1
  {
    hide CodesAskedFor, BoundedBackoffMs, LimitCode, RemediationCode, RetryableProposalFailureCode, RejectCode,
      BoundedRemediationDecision;
    if LimitCode(e).Some? {
      RecordAdds(s.attempts, Record(k, RETRY, "RATE_LIMITED", "transient", LimitCode(e).value));
    } else if e.decision.Some? {
      var d := e.decision.value;
      RecordAdds(s.attempts, Record(k, RETRY, "REMEDIATION_RETRY", d.failureClass, RemediationCode(e.reason)));
    } else {
      RejectCodeRecords(s, k, maxAttempts, RetryableProposalFailureCode(e.reason).value);
    }
  }

  lemma PatchRecords(s: State, k: nat, maxAttempts: nat, turn: Turn, patch: string)
    requires CodesAreRecorded(s) && OnPatch(s, k, maxAttempts, turn, patch).step.Continue?
    ensures var after := OnPatch(s, k, maxAttempts, turn, patch).state;
      CodesAreRecorded(after) && s.attempts <= after.attempts && |after.attempts| == |s.attempts| + 1
  {
    hide CodesAskedFor, RetryableProposalFailureCode, RejectCode, IsApplyCheck;
    var validating := Did(s.(seenPatches := s.seenPatches + {patch}), Validating(k, patch));
    RejectCodeRecords(validating, k, maxAttempts, RetryableProposalFailureCode(turn.validation.reason).value);
  }

  lemma AttemptRecords(s: State, k: nat, maxAttempts: nat, turn: Turn)
    requires CodesAreRecorded(s) && Attempt(s, k, maxAttempts, turn).step.Continue?
    ensures var after := Attempt(s, k, maxAttempts, turn).state;
      CodesAreRecorded(after) && s.attempts <= after.attempts && |after.attempts| == |s.attempts| + 1
  {
    hide CodesAskedFor, OnPatch, OnProposalError, PostError, BoundedRemediationDecision;
    var asked := Did(s, Proposed(k, s.feedback, s.context));
    match ProposalOf(turn)
    case Abstains(_) =>
    case Fails(e) =>
      if e.decision.Some? {
        ErrorDecisionIsBounded(turn.post);
      }
      ErrorRecords(asked, k, maxAttempts, e, turn.sample);
    case Ready(patch) => PatchRecords(asked, k, maxAttempts, turn, patch);
  }

  /** The reply of attempt `k`, the patches before it and the codes asked for before it allow another attempt. */
  ghost predicate AllowsAnother(turns: seq<Turn>, attempts: seq<Record>, k: nat)
    requires 1 <= k <= |turns| && k - 1 <= |attempts|
  {
    MayRetry(PatchesBefore(turns, k), CodesAskedFor(attempts, k - 1), k, turns[k - 1])
  }

  lemma SameCodes(attempts: seq<Record>, more: seq<Record>, n: nat)
    requires attempts <= more && n <= |attempts|
    ensures CodesAskedFor(attempts, n) == CodesAskedFor(more, n)
  {
    hide IsCodeRetry;
    assert forall i :: 0 <= i < n ==> attempts[i] == more[i];
  }

  lemma AttemptExtends(s: State, k: nat, maxAttempts: nat, turn: Turn)
    ensures s.attempts <= Attempt(s, k, maxAttempts, turn).state.attempts
  {
    hide BoundedBackoffMs, LimitCode, RemediationCode, RetryableProposalFailureCode, ProposalOf, IsApplyCheck;
  }

  lemma {:induction false} RunRetries(turns: seq<Turn>, s: State, k: nat, maxAttempts: nat) returns (last: nat)
    requires 1 <= k <= maxAttempts <= |turns| && |s.attempts| == k - 1
    requires JournalTells(turns, s.journal, k - 1) && SeenAreReady(turns, s.seenPatches, k) && Between(s, k)
    requires CodesAreRecorded(s)
    ensures var p := Run(s, k, maxAttempts, turns);
      && k <= last <= maxAttempts && Proposals(p.state.journal) == last
      && last - 1 <= |p.state.attempts| && s.attempts <= p.state.attempts
      && (forall j :: k <= j < last ==> AllowsAnother(turns, p.state.attempts, j))
      && !(last < maxAttempts && AllowsAnother(turns, p.state.attempts, last))
    decreases maxAttempts - k
  {
    hide Attempt, JournalTells, SeenAreReady, Between, MayRetry, CodesAskedFor, ProposalOf;
    var turn := turns[k - 1];
    var p := Attempt(s, k, maxAttempts, turn);
    PatchesAreSeen(turns, s.seenPatches, k);
    AttemptContinuesIff(s, k, maxAttempts, turn, PatchesBefore(turns, k));
    AttemptTells(turns, s, k, maxAttempts);
    AttemptLeads(turns, maxAttempts, k, s);
    AttemptExtends(s, k, maxAttempts, turn);
    if p.step.Continue? {
      AttemptRecords(s, k, maxAttempts, turn);
      last := RunRetries(turns, p.state, k + 1, maxAttempts);
      SameCodes(s.attempts, Run(s, k, maxAttempts, turns).state.attempts, k - 1);
    } else {
      last := k;
      SameCodes(s.attempts, p.state.attempts, k - 1);
    }
  }

  lemma PatchesAreSeen(turns: seq<Turn>, seen: set<string>, k: nat)
    requires SeenAreReady(turns, seen, k)
    ensures forall patch: string :: patch in PatchesBefore(turns, k) <==> patch in seen
  {
    hide ReadyAt;
  }

  /**
   How long a run goes on, for every sequence of replies: after each attempt but the last, the reply allowed another
   attempt, given the patches brought and the codes asked for before it; after the last it did not, or the budget was
   used up.
   */
  lemma RepliesDecideAttempts(turns: seq<Turn>, maxAttempts: nat, context: Option<string>)
    requires 1 <= maxAttempts <= |turns|
    ensures var p := Run(Start(context), 1, maxAttempts, turns); var last := Proposals(p.state.journal);
      && 1 <= last <= maxAttempts && last - 1 <= |p.state.attempts|
      && (forall k :: 1 <= k < last ==> AllowsAnother(turns, p.state.attempts, k))
      && !(last < maxAttempts && AllowsAnother(turns, p.state.attempts, last))
  {
    hide Run, AllowsAnother, JournalTells, SeenAreReady;
    NothingTold(turns, context);
    StartIsBetween(context);
    var last := RunRetries(turns, Start(context), 1, maxAttempts);
  }

  /**
   The last attempt of a run reports files exactly when it brought a new valid patch whose publication was accepted.
   */
  lemma AcceptedIsDispatched(s: State, k: nat, maxAttempts: nat, turn: Turn, files: seq<string>)
    ensures Attempt(s, k, maxAttempts, turn).step == Finish("DISPATCHED", "", files) <==>
      && turn.post.Answered? && turn.post.patch.Some? && IsReady(turn, turn.post.patch.value)
      && turn.post.patch.value !in s.seenPatches
      && turn.validation == Validated(files) && turn.publication.Accepted?
  {
    hide OnProposalError, ProposalOf, TellsRateLimit, RetryableProposalFailureCode, IsApplyCheck, IsReady;
    ReadyIsRead(turn);
    var asked := Did(s, Proposed(k, s.feedback, s.context));
    if ProposalOf(turn).Fails? {
      ErrorsDispatchNothing(asked, k, maxAttempts, ProposalOf(turn).error, turn.sample);
    }
  }

  lemma ErrorsDispatchNothing(s: State, k: nat, maxAttempts: nat, e: WorkerError, sample: Option<real>)
    ensures var step := OnProposalError(s, k, maxAttempts, e, sample).step;
      step.Finish? ==> step.status != "DISPATCHED"
  {
    hide BoundedBackoffMs, LimitCode, RemediationCode, RetryableProposalFailureCode;
  }

  // ----- How an error ends a run -----

  /** What an error of attempt `k` that no other attempt follows makes of the run. */
  lemma ErrorEndsAs(s: State, k: nat, maxAttempts: nat, e: WorkerError, sample: Option<real>)
    ensures var step := OnProposalError(s, k, maxAttempts, e, sample).step;
      var decided := !IsFinal(e) && LimitCode(e).None? && e.decision.Some?;
      var stops := e.decision.Some? && e.decision.value.outcome == "FAILED_CLOSED"
        && e.decision.value.recovery == "STOP";
      && (step.Finish? && step.status == "NO_ACTION" <==> decided && e.decision.value.outcome == "VALID_NO_ACTION")
      && (step.Finish? && step.status == "WAITING_RATE_LIMIT" <==>
            e.invalid.None? && !stops && e.workerStop && e.rateLimit.Some?)
      && (step.Finish? && step.status == "BLOCKED_RATE_LIMIT" <==>
            !IsFinal(e) && LimitCode(e).Some? && !(LimitCode(e).value == "RATE_LIMITED" && k < maxAttempts))
      && (step.Throw? <==>
            !IsFinal(e) && LimitCode(e).None? && e.decision.None? && RetryableProposalFailureCode(e.reason).None?)
      && (step.Finish? && step.status == "FAILED_CLOSED" <==>
            || e.invalid.Some? || stops
            || (decided && e.decision.value.outcome !in {"VALID_NO_ACTION", "FAILED_TO_REMEDIATE"}))
      && (step.Finish? && step.status == "FAILED_TO_REMEDIATE" <==>
            && !step.Continue? && !step.Throw? && !IsFinal(e) && LimitCode(e).None?
            && (e.decision.Some? ==> e.decision.value.outcome == "FAILED_TO_REMEDIATE"))
  {
    hide BoundedBackoffMs, LimitCode, RemediationCode, RetryableProposalFailureCode;
  }

  // ----- What an attempt is asked with -----

  /** The reply brought a patch that did not apply: the next attempt is given the files the patch meant to change. */
  ghost predicate FailsToApply(turn: Turn) {
    && turn.post.Answered? && turn.post.patch.Some? && IsReady(turn, turn.post.patch.value)
    && turn.validation.Rejected? && NamesApplyCheck(turn.validation.reason)
  }

  predicate NamesApplyCheck(reason: string) {
    || reason == "SANDBOX_PATCH_APPLY_CHECK_FAILED" || "SANDBOX_PATCH_APPLY_CHECK_FAILED:" <= reason
    || reason == "SANDBOX_PATCH_NORMALIZED_APPLY_CHECK_FAILED"
    || "SANDBOX_PATCH_NORMALIZED_APPLY_CHECK_FAILED:" <= reason
  }

  /** The context of attempt `k`: that of the last patch before it that did not apply, or the one to begin with. */
  ghost function ContextFor(turns: seq<Turn>, context: Option<string>, k: nat): Option<string>
    requires k <= |turns| + 1
  {
    if k <= 1 then context
    else if FailsToApply(turns[k - 2]) then turns[k - 2].contextForPatch
    else ContextFor(turns, context, k - 1)
  }

  const APPLY_CHECK := "SANDBOX_PATCH_APPLY_CHECK_FAILED"
  const NORMALIZED_APPLY_CHECK := "SANDBOX_PATCH_NORMALIZED_APPLY_CHECK_FAILED"

  lemma ApplyCheckCode(reason: string)
    ensures RetryableProposalFailureCode(reason) == Some(APPLY_CHECK) <==>
      reason == "SANDBOX_PATCH_APPLY_CHECK_FAILED" || "SANDBOX_PATCH_APPLY_CHECK_FAILED:" <= reason
  {
    hide RetryableProposalFailureCode;
    assert APPLY_CHECK + ":" == "SANDBOX_PATCH_APPLY_CHECK_FAILED:";
    ListedIff(reason, APPLY_CHECK);
  }

  lemma NormalizedApplyCheckCode(reason: string)
    ensures RetryableProposalFailureCode(reason) == Some(NORMALIZED_APPLY_CHECK) <==>
      || reason == "SANDBOX_PATCH_NORMALIZED_APPLY_CHECK_FAILED"
      || "SANDBOX_PATCH_NORMALIZED_APPLY_CHECK_FAILED:" <= reason
  {
    hide RetryableProposalFailureCode;
    assert NORMALIZED_APPLY_CHECK + ":" == "SANDBOX_PATCH_NORMALIZED_APPLY_CHECK_FAILED:";
    ListedIff(reason, NORMALIZED_APPLY_CHECK);
  }

  lemma ApplyCheckIff(reason: string)
    ensures var code := RetryableProposalFailureCode(reason);
      (code.Some? && IsApplyCheck(code.value)) <==> NamesApplyCheck(reason)
  {
    hide RetryableProposalFailureCode;
    ApplyCheckCode(reason);
    NormalizedApplyCheckCode(reason);
  }

  lemma AttemptContext(s: State, k: nat, maxAttempts: nat, turn: Turn)
    requires Attempt(s, k, maxAttempts, turn).step.Continue?
    ensures Attempt(s, k, maxAttempts, turn).state.context ==
      if FailsToApply(turn) then turn.contextForPatch else s.context
  {
    hide OnProposalError, ProposalOf, IsReady, RetryableProposalFailureCode, IsApplyCheck;
    ReadyIsRead(turn);
    var asked := Did(s, Proposed(k, s.feedback, s.context));
    match ProposalOf(turn)
    case Abstains(_) =>
    case Fails(e) => ErrorContext(asked, k, maxAttempts, e, turn.sample);
    case Ready(patch) =>
      assert IsReady(turn, patch);
      PatchContext(asked, k, maxAttempts, turn, patch);
  }

  lemma PatchContext(s: State, k: nat, maxAttempts: nat, turn: Turn, patch: string)
    requires OnPatch(s, k, maxAttempts, turn, patch).step.Continue?
    requires IsReady(turn, patch)
    ensures OnPatch(s, k, maxAttempts, turn, patch).state.context ==
      if FailsToApply(turn) then turn.contextForPatch else s.context
  {
    hide RetryableProposalFailureCode, IsApplyCheck, TellsRateLimit, NamesApplyCheck;
    if turn.validation.Rejected? {
      ApplyCheckIff(turn.validation.reason);
    }
  }

  lemma ErrorContext(s: State, k: nat, maxAttempts: nat, e: WorkerError, sample: Option<real>)
    ensures OnProposalError(s, k, maxAttempts, e, sample).state.context == s.context
  {
    hide BoundedBackoffMs, LimitCode, RemediationCode, RetryableProposalFailureCode;
  }

  /** Each attempt was asked with the last code that called for a new patch, and the context of the last misfit. */
  ghost predicate AsksTell(
    turns: seq<Turn>, context: Option<string>, journal: seq<Act>, attempts: seq<Record>, n: nat)
  {
    forall j: nat, feedback: Option<string>, given: Option<string> :: Proposed(j, feedback, given) in journal ==>
      && 1 <= j <= n && n <= |turns| && j - 1 <= |attempts|
      && feedback == LastCode(attempts[..j - 1]) && given == ContextFor(turns, context, j)
  }

  lemma AttemptAsks(turns: seq<Turn>, context: Option<string>, s: State, k: nat, maxAttempts: nat)
    requires 1 <= k <= |turns| && |s.attempts| == k - 1 && s.feedback == LastCode(s.attempts)
    requires s.context == ContextFor(turns, context, k) && AsksTell(turns, context, s.journal, s.attempts, k - 1)
    ensures var p := Attempt(s, k, maxAttempts, turns[k - 1]);
      && AsksTell(turns, context, p.state.journal, p.state.attempts, k)
      && (p.step.Continue? ==> p.state.context == ContextFor(turns, context, k + 1))
  {
    hide Attempt, LastCode, ActsOf, FailsToApply;
    var p := Attempt(s, k, maxAttempts, turns[k - 1]);
    AttemptActs(s, k, maxAttempts, turns[k - 1]);
    AttemptExtends(s, k, maxAttempts, turns[k - 1]);
    if p.step.Continue? {
      AttemptContext(s, k, maxAttempts, turns[k - 1]);
    }
    forall j: nat, feedback: Option<string>, given: Option<string> | Proposed(j, feedback, given) in p.state.journal
      ensures
        && 1 <= j <= k && j - 1 <= |p.state.attempts|
        && feedback == LastCode(p.state.attempts[..j - 1]) && given == ContextFor(turns, context, j)
    {
      var act := Proposed(j, feedback, given);
      ActsAskNothing(s, k, turns[k - 1], act);
      assert act in s.journal || act == Proposed(k, s.feedback, s.context);
      assert p.state.attempts[..j - 1] == s.attempts[..j - 1];
      assert s.attempts[..k - 1] == s.attempts;
    }
  }

  lemma ActsAskNothing(s: State, k: nat, turn: Turn, act: Act)
    requires act.Proposed?
    ensures act !in ActsOf(s, k, turn)
  {
    hide ProposalOf;
  }

  lemma {:induction false} RunAsks(turns: seq<Turn>, context: Option<string>, s: State, k: nat, maxAttempts: nat)
    returns (last: nat)
    requires 1 <= k <= maxAttempts <= |turns| && Between(s, k)
    requires s.context == ContextFor(turns, context, k) && AsksTell(turns, context, s.journal, s.attempts, k - 1)
    ensures var p := Run(s, k, maxAttempts, turns);
      Proposals(p.state.journal) == last && AsksTell(turns, context, p.state.journal, p.state.attempts, last)
    decreases maxAttempts - k
  {
    BetweenTells(s, k);
    hide Attempt, AsksTell, Between, ContextFor;
    AttemptAsks(turns, context, s, k, maxAttempts);
    AttemptLeads(turns, maxAttempts, k, s);
    var p := Attempt(s, k, maxAttempts, turns[k - 1]);
    if p.step.Continue? {
      last := RunAsks(turns, context, p.state, k + 1, maxAttempts);
    } else {
      last := k;
    }
  }

  lemma BetweenTells(s: State, k: nat)
    requires Between(s, k)
    ensures |s.attempts| == k - 1 && s.feedback == LastCode(s.attempts)
  {
  }

  /** Over every run, each attempt is asked with the feedback and the context its predecessors call for. */
  lemma AsksFollowReplies(turns: seq<Turn>, maxAttempts: nat, context: Option<string>)
    requires 1 <= maxAttempts <= |turns|
    ensures var end := Run(Start(context), 1, maxAttempts, turns).state;
      forall j: nat, feedback: Option<string>, given: Option<string> :: Proposed(j, feedback, given) in end.journal ==>
        && 1 <= j <= |turns| && j - 1 <= |end.attempts|
        && feedback == LastCode(end.attempts[..j - 1]) && given == ContextFor(turns, context, j)
  {
    hide Run, LastCode, Proposals, FailsToApply, Between;
    StartIsBetween(context);
    var last := RunAsks(turns, context, Start(context), 1, maxAttempts);
  }
}
