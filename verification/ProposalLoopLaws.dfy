/**
 What the proposal loop keeps over every sequence of worker replies (scripts/autopilot-dispatch-retry.js): a bounded
 number of proposals, no patch validated twice, no deterministic code retried twice, and a publication that is the last
 act and carries the files its own validation returned.
 */
module ProposalLoopLaws {
  import opened Prelude
  import opened RateLimit
  import opened ProposalLoop

  // ----- Reading records and the journal -----

  /** A retry that regenerates the proposal because of a failure code. */
  predicate IsCodeRetry(r: Record) {
    r.decision == RETRY
      && (r.workerStatus == "PROPOSAL_REJECTED"
          || (r.workerStatus == "REMEDIATION_RETRY" && r.failureClass == "PROPOSAL_REJECTED"))
  }

  function Proposals(journal: seq<Act>): nat {
    if |journal| == 0 then 0
    else Proposals(journal[..|journal| - 1]) + if journal[|journal| - 1].Proposed? then 1 else 0
  }

  ghost predicate PatchesDistinct(journal: seq<Act>) {
    forall i, j :: 0 <= i < j < |journal| && journal[i].Validating? && journal[j].Validating? ==>
      journal[i].patch != journal[j].patch
  }

  ghost predicate CodesDistinct(attempts: seq<Record>) {
    forall i, j :: 0 <= i < j < |attempts| && IsCodeRetry(attempts[i]) && IsCodeRetry(attempts[j]) ==>
      attempts[i].reason != attempts[j].reason
  }

  ghost predicate Unpublished(journal: seq<Act>) {
    forall i :: 0 <= i < |journal| ==> !journal[i].Publishing?
  }

  /** A publication is the last act, comes right after the validation of its own attempt, and carries its files. */
  ghost predicate PublishesLast(turns: seq<Turn>, journal: seq<Act>) {
    forall i :: 0 <= i < |journal| && journal[i].Publishing? ==>
      && i == |journal| - 1 && i > 0
      && journal[i - 1].Validating? && journal[i - 1].attempt == journal[i].attempt
      && 1 <= journal[i].attempt <= |turns|
      && ProposalOf(turns[journal[i].attempt - 1]) == Ready(journal[i - 1].patch)
      && turns[journal[i].attempt - 1].validation == Validated(journal[i].files)
  }

  /** The feedback of the next proposal names the last failure code that asked for a new patch. */
  function LastCode(attempts: seq<Record>): Option<string> {
    if |attempts| == 0 then None
    else
      var last := attempts[|attempts| - 1];
      if IsCodeRetry(last) then Some(last.reason) else LastCode(attempts[..|attempts| - 1])
  }

  // ----- The invariant between attempts -----

  ghost predicate Memory(s: State) {
    && PatchesDistinct(s.journal) && CodesDistinct(s.attempts)
    && (forall i :: 0 <= i < |s.journal| && s.journal[i].Validating? ==> s.journal[i].patch in s.seenPatches)
    && (forall i :: 0 <= i < |s.attempts| && IsCodeRetry(s.attempts[i]) ==> s.attempts[i].reason in s.seenCodes)
  }

  ghost predicate Between(s: State, attempt: nat) {
    && |s.attempts| == attempt - 1 == Proposals(s.journal)
    && (forall i :: 0 <= i < |s.attempts| ==> s.attempts[i].decision == RETRY && s.attempts[i].attempt == i + 1)
    && Memory(s)
    && Unpublished(s.journal)
    && s.feedback == LastCode(s.attempts)
  }

  /** The state once attempt `k` has asked for a proposal. */
  ghost predicate Asked(s: State, k: nat) {
    && |s.attempts| == k - 1 && Proposals(s.journal) == k
    && (forall i :: 0 <= i < |s.attempts| ==> s.attempts[i].decision == RETRY && s.attempts[i].attempt == i + 1)
    && Memory(s)
    && Unpublished(s.journal)
    && s.feedback == LastCode(s.attempts)
  }

  /** All but the last record are retries; the rate-limit stop records nothing for its own attempt. */
  ghost predicate RecordsEnd(k: nat, p: Progress)
    requires k >= 1
  {
    var attempts := p.state.attempts;
    && (forall i :: 0 <= i < |attempts| && i < k - 1 ==> attempts[i].decision == RETRY)
    && (forall i :: 0 <= i < |attempts| ==> attempts[i].attempt == i + 1)
    && (p.step.Finish? ==>
      if p.step.status == "BLOCKED_RATE_LIMIT" then |attempts| == k - 1
      else |attempts| == k && attempts[k - 1].decision != RETRY)
  }

  /** The call reports DISPATCHED exactly when it published files and the publication was accepted. */
  ghost predicate DispatchEnds(turns: seq<Turn>, k: nat, p: Progress)
    requires 1 <= k <= |turns|
  {
    var journal := p.state.journal;
    && PublishesLast(turns, journal)
    && (p.step.Finish? ==>
      if p.step.status == "DISPATCHED" then
        && turns[k - 1].publication.Accepted?
        && |journal| > 0 && journal[|journal| - 1] == Publishing(k, p.step.changedFiles)
      else Unpublished(journal) && p.step.changedFiles == [])
  }

  /** How a run looks when it ends at attempt `k`. */
  ghost predicate Ended(turns: seq<Turn>, maxAttempts: nat, k: nat, p: Progress) {
    && 1 <= k <= maxAttempts && k <= |turns| && Proposals(p.state.journal) == k
    && !p.step.Continue? && !p.step.Exhausted?
    && PatchesDistinct(p.state.journal) && CodesDistinct(p.state.attempts)
    && RecordsEnd(k, p)
    && DispatchEnds(turns, k, p)
  }

  /** What one attempt may lead to. */
  ghost predicate Leads(turns: seq<Turn>, maxAttempts: nat, k: nat, p: Progress) {
    if p.step.Continue? then k < maxAttempts && Between(p.state, k + 1) else Ended(turns, maxAttempts, k, p)
  }

  // ----- One record, one act -----

  lemma RecordGrows(attempts: seq<Record>, r: Record)
    requires CodesDistinct(attempts)
    requires IsCodeRetry(r) ==> forall i :: 0 <= i < |attempts| && IsCodeRetry(attempts[i]) ==>
      attempts[i].reason != r.reason
    ensures CodesDistinct(attempts + [r])
    ensures LastCode(attempts + [r]) == if IsCodeRetry(r) then Some(r.reason) else LastCode(attempts)
  {
    assert (attempts + [r])[..|attempts|] == attempts;
  }

  lemma ActGrows(journal: seq<Act>, a: Act)
    requires Unpublished(journal) && PatchesDistinct(journal)
    requires a.Validating? ==> forall i :: 0 <= i < |journal| && journal[i].Validating? ==> journal[i].patch != a.patch
    ensures Proposals(journal + [a]) == Proposals(journal) + (if a.Proposed? then 1 else 0)
    ensures PatchesDistinct(journal + [a])
    ensures !a.Publishing? ==> Unpublished(journal + [a])
  {
    hide Proposals;
    ProposalsGrow(journal, a);
  }

  lemma ProposalsGrow(journal: seq<Act>, a: Act)
    ensures Proposals(journal + [a]) == Proposals(journal) + (if a.Proposed? then 1 else 0)
  {
    assert (journal + [a])[..|journal|] == journal;
  }

  /** Ending without a publication. */
  lemma StopsHere(turns: seq<Turn>, maxAttempts: nat, k: nat, s: State, r: Record, status: string)
    requires Asked(s, k) && 1 <= k <= maxAttempts <= |turns|
    requires r.attempt == k && r.decision != RETRY && status != "BLOCKED_RATE_LIMIT" && status != "DISPATCHED"
    ensures Ended(turns, maxAttempts, k, Progress(s.(attempts := s.attempts + [r]), Finish(status, r.reason, [])))
  {
    RecordGrows(s.attempts, r);
    hide LastCode, Proposals;
  }

  lemma ThrowsHere(turns: seq<Turn>, maxAttempts: nat, k: nat, s: State, error: string)
    requires Asked(s, k) && 1 <= k <= maxAttempts <= |turns|
    ensures Ended(turns, maxAttempts, k, Progress(s, Throw(error)))
  {
    hide LastCode, Proposals;
  }

  /** A retry keeps the invariant: a regenerating one needs a fresh code and leaves it as feedback. */
  lemma RetryKeeps(k: nat, s: State, r: Record, codes: set<string>, feedback: Option<string>, journal: seq<Act>)
    requires Asked(s, k) && k >= 1 && r.attempt == k && r.decision == RETRY && s.seenCodes <= codes
    requires IsCodeRetry(r) ==> r.reason !in s.seenCodes && r.reason in codes && feedback == Some(r.reason)
    requires !IsCodeRetry(r) ==> feedback == s.feedback
    requires journal == s.journal || exists ms :: journal == s.journal + [Sleeping(ms)]
    ensures Between(State(s.attempts + [r], journal, s.seenPatches, codes, feedback, s.context), k + 1)
  {
    if journal != s.journal {
      var ms :| journal == s.journal + [Sleeping(ms)];
      ActGrows(s.journal, Sleeping(ms));
    }
    hide PatchesDistinct, Proposals, Unpublished;
    RecordGrows(s.attempts, r);
    hide LastCode, CodesDistinct;
  }

  lemma RejectCodeLeads(turns: seq<Turn>, maxAttempts: nat, k: nat, s: State, code: string)
    requires Asked(s, k) && 1 <= k <= maxAttempts <= |turns|
    ensures Leads(turns, maxAttempts, k, RejectCode(s, k, maxAttempts, code))
  {
    var p := RejectCode(s, k, maxAttempts, code);
    var r := p.state.attempts[|s.attempts|];
    assert p.state.attempts == s.attempts + [r];
    if p.step.Continue? {
      RetryKeeps(k, s, r, s.seenCodes + {code}, Some(code), s.journal);
      hide Asked, Between;
    } else {
      MoreCodesKeepAsked(k, s, s.seenCodes + {code});
      hide Asked, Ended, Between;
      StopsHere(turns, maxAttempts, k, s.(seenCodes := s.seenCodes + {code}), r, "FAILED_TO_REMEDIATE");
    }
  }

  lemma MoreCodesKeepAsked(k: nat, s: State, codes: set<string>)
    requires Asked(s, k) && s.seenCodes <= codes
    ensures Asked(s.(seenCodes := codes), k)
  {
    hide LastCode, Proposals, PatchesDistinct, Unpublished, CodesDistinct;
  }

  lemma RateLimitedLeads(
    turns: seq<Turn>, maxAttempts: nat, k: nat, s: State, code: string, limit: Option<Evidence>, sample: Option<real>)
    requires Asked(s, k) && 1 <= k <= maxAttempts <= |turns|
    ensures Leads(turns, maxAttempts, k, RateLimited(s, k, maxAttempts, code, limit, sample))
  {
    hide BoundedBackoffMs;
    var p := RateLimited(s, k, maxAttempts, code, limit, sample);
    if p.step.Continue? {
      RetryKeeps(k, s, Record(k, RETRY, "RATE_LIMITED", "transient", code), s.seenCodes, s.feedback, p.state.journal);
      hide Asked, Between;
    } else {
      hide LastCode, Proposals;
    }
  }

  lemma RetriesWithDecision(
    maxAttempts: nat, k: nat, s: State, code: string, d: Remediation, sample: Option<real>)
    requires Asked(s, k) && 1 <= k <= maxAttempts
    requires BoundedRemediationDecision(d).Some?
    requires Remediate(s, k, maxAttempts, code, d, sample).step.Continue?
    ensures k < maxAttempts && Between(Remediate(s, k, maxAttempts, code, d, sample).state, k + 1)
  {
    RetryableDecisions(d);
    hide BoundedBackoffMs, BoundedRemediationDecision, Asked, Between;
    var after := Remediate(s, k, maxAttempts, code, d, sample).state;
    RetryKeeps(k, s, Record(k, RETRY, "REMEDIATION_RETRY", d.failureClass, code), after.seenCodes, after.feedback,
      after.journal);
  }

  lemma RemediateLeads(
    turns: seq<Turn>, maxAttempts: nat, k: nat, s: State, code: string, d: Remediation, sample: Option<real>)
    requires Asked(s, k) && 1 <= k <= maxAttempts <= |turns|
    requires BoundedRemediationDecision(d).Some?
    ensures Leads(turns, maxAttempts, k, Remediate(s, k, maxAttempts, code, d, sample))
  {
    var p := Remediate(s, k, maxAttempts, code, d, sample);
    if p.step.Continue? {
      RetriesWithDecision(maxAttempts, k, s, code, d, sample);
    } else {
      hide BoundedBackoffMs, BoundedRemediationDecision, Ended, Between, Asked;
      var r := p.state.attempts[|s.attempts|];
      var remembered := s.(seenCodes := p.state.seenCodes);
      MoreCodesKeepAsked(k, s, p.state.seenCodes);
      StopsHere(turns, maxAttempts, k, remembered, r, p.step.status);
      assert p == Progress(remembered.(attempts := s.attempts + [r]), Finish(p.step.status, r.reason, []));
    }
  }

  /** The error a post raises carries only bounded decisions. */
  lemma ErrorDecisionIsBounded(post: Post)
    requires PostError(post).Some? && PostError(post).value.decision.Some?
    ensures BoundedRemediationDecision(PostError(post).value.decision.value).Some?
  {
    hide RateLimitEvidence, WorkerStops;
  }

  lemma ErrorLeads(turns: seq<Turn>, maxAttempts: nat, k: nat, s: State, e: WorkerError, sample: Option<real>)
    requires Asked(s, k) && 1 <= k <= maxAttempts <= |turns|
    requires e.decision.Some? ==> BoundedRemediationDecision(e.decision.value).Some?
    ensures Leads(turns, maxAttempts, k, OnProposalError(s, k, maxAttempts, e, sample))
  {
    hide Asked, Leads, BoundedRemediationDecision, BoundedBackoffMs, RetryableProposalFailureCode, LimitCode,
      RemediationCode;
    hide RejectCode, RateLimited, Remediate, ProviderRateLimitCode;
    var p := OnProposalError(s, k, maxAttempts, e, sample);
    if e.invalid.Some? {
      StopsWith(turns, maxAttempts, k, s,
        Record(k, FAILED_CLOSED, e.invalid.value.workerStatus, e.invalid.value.failureClass, e.reason),
          "FAILED_CLOSED");
    } else if e.decision.Some? && e.decision.value.outcome == "FAILED_CLOSED" && e.decision.value.recovery == "STOP" {
      StopsWith(turns, maxAttempts, k, s,
        Record(k, FAILED_CLOSED, "FAILED_CLOSED", e.decision.value.failureClass, RemediationCode(e.reason)),
          "FAILED_CLOSED");
    } else if e.workerStop && e.rateLimit.Some? {
      StopsWith(turns, maxAttempts, k, s,
        Record(k, NO_ACTION, "WAITING_RATE_LIMIT", "transient", "WAITING_RATE_LIMIT"), "WAITING_RATE_LIMIT");
    } else if LimitCode(e).Some? {
      RateLimitedLeads(turns, maxAttempts, k, s, LimitCode(e).value, e.rateLimit, sample);
    } else if e.decision.Some? {
      RemediateLeads(turns, maxAttempts, k, s, RemediationCode(e.reason), e.decision.value, sample);
    } else if RetryableProposalFailureCode(e.reason).Some? {
      RejectCodeLeads(turns, maxAttempts, k, s, RetryableProposalFailureCode(e.reason).value);
    } else {
      ThrowsWith(turns, maxAttempts, k, s, e.reason);
    }
  }

  lemma StopsWith(turns: seq<Turn>, maxAttempts: nat, k: nat, s: State, r: Record, status: string)
    requires Asked(s, k) && 1 <= k <= maxAttempts <= |turns|
    requires r.attempt == k && r.decision != RETRY && status != "BLOCKED_RATE_LIMIT" && status != "DISPATCHED"
    ensures Leads(turns, maxAttempts, k, Progress(s.(attempts := s.attempts + [r]), Finish(status, r.reason, [])))
  {
    hide Asked, Ended, Between;
    StopsHere(turns, maxAttempts, k, s, r, status);
  }

  lemma ThrowsWith(turns: seq<Turn>, maxAttempts: nat, k: nat, s: State, error: string)
    requires Asked(s, k) && 1 <= k <= maxAttempts <= |turns|
    ensures Leads(turns, maxAttempts, k, Progress(s, Throw(error)))
  {
    hide Asked, Ended, Between;
    ThrowsHere(turns, maxAttempts, k, s, error);
  }

  lemma ValidatingKeepsAsked(k: nat, s: State, patch: string)
    requires Asked(s, k) && patch !in s.seenPatches
    ensures Asked(Did(s.(seenPatches := s.seenPatches + {patch}), Validating(k, patch)), k)
  {
    ActGrows(s.journal, Validating(k, patch));
    hide LastCode, Proposals, PatchesDistinct, Unpublished, CodesDistinct;
  }

  lemma PublishingIsLast(turns: seq<Turn>, k: nat, journal: seq<Act>, patch: string, files: seq<string>)
    requires Unpublished(journal) && 1 <= k <= |turns|
    requires |journal| > 0 && journal[|journal| - 1] == Validating(k, patch)
    requires ProposalOf(turns[k - 1]) == Ready(patch) && turns[k - 1].validation == Validated(files)
    ensures PublishesLast(turns, journal + [Publishing(k, files)])
  {
    hide ProposalOf;
  }

  lemma PublishingEnds(turns: seq<Turn>, maxAttempts: nat, k: nat, s: State, patch: string, files: seq<string>)
    requires Asked(s, k) && 1 <= k <= maxAttempts <= |turns|
    requires |s.journal| > 0 && s.journal[|s.journal| - 1] == Validating(k, patch)
    requires ProposalOf(turns[k - 1]) == Ready(patch) && turns[k - 1].validation == Validated(files)
    ensures Leads(turns, maxAttempts, k, OnValidatedPatch(s, k, turns[k - 1], files))
  {
    hide ProposalOf;
    ActGrows(s.journal, Publishing(k, files));
    PublishingIsLast(turns, k, s.journal, patch, files);
    hide Proposals, PatchesDistinct, PublishesLast, Unpublished, Between;
    RecordGrows(s.attempts, Record(k, DISPATCHED, "EXECUTION_ACCEPTED", "", ""));
    hide LastCode, CodesDistinct;
  }

  lemma PatchLeads(turns: seq<Turn>, maxAttempts: nat, k: nat, s: State, patch: string)
    requires Asked(s, k) && 1 <= k <= maxAttempts <= |turns|
    requires ProposalOf(turns[k - 1]) == Ready(patch)
    ensures Leads(turns, maxAttempts, k, OnPatch(s, k, maxAttempts, turns[k - 1], patch))
  {
    hide Asked, Leads, RetryableProposalFailureCode, ProposalOf, RejectCode, OnValidatedPatch;
    var turn := turns[k - 1];
    if patch in s.seenPatches {
      StopsWith(turns, maxAttempts, k, s,
        Record(k, FAILED_CLOSED, "PROPOSAL_REJECTED", "deterministic", "CODING_PROPOSAL_REPEATED"),
          "FAILED_TO_REMEDIATE");
    } else {
      ValidatingKeepsAsked(k, s, patch);
      var validating := Did(s.(seenPatches := s.seenPatches + {patch}), Validating(k, patch));
      if turn.validation.Validated? {
        PublishingEnds(turns, maxAttempts, k, validating, patch, turn.validation.files);
      } else {
        var code := RetryableProposalFailureCode(turn.validation.reason);
        if code.None? {
          ThrowsWith(turns, maxAttempts, k, validating, turn.validation.reason);
        } else {
          RejectCodeLeads(turns, maxAttempts, k, validating, code.value);
          var after := RejectCode(validating, k, maxAttempts, code.value);
          if after.step.Continue? {
            ContextIsFree(turns, maxAttempts, k, after, turn.contextForPatch);
          }
        }
      }
    }
  }

  /** The stored proposal context plays no part in the invariant. */
  lemma ContextIsFree(turns: seq<Turn>, maxAttempts: nat, k: nat, p: Progress, context: Option<string>)
    requires Leads(turns, maxAttempts, k, p) && p.step.Continue?
    ensures Leads(turns, maxAttempts, k, Progress(p.state.(context := context), Continue))
  {
    hide LastCode, Proposals, PatchesDistinct, Unpublished, CodesDistinct;
  }

  lemma AskingKeeps(k: nat, s: State)
    requires Between(s, k)
    ensures Asked(Did(s, Proposed(k, s.feedback, s.context)), k)
  {
    ActGrows(s.journal, Proposed(k, s.feedback, s.context));
    hide LastCode, Proposals, PatchesDistinct, Unpublished, CodesDistinct;
  }

  lemma AttemptLeads(turns: seq<Turn>, maxAttempts: nat, k: nat, s: State)
    requires Between(s, k) && 1 <= k <= maxAttempts <= |turns|
    ensures Leads(turns, maxAttempts, k, Attempt(s, k, maxAttempts, turns[k - 1]))
  {
    hide Asked, Leads, Between, OnPatch, OnProposalError, PostError, BoundedRemediationDecision;
    var turn := turns[k - 1];
    var asked := Did(s, Proposed(k, s.feedback, s.context));
    AskingKeeps(k, s);
    var proposal := ProposalOf(turn);
    if proposal.Abstains? {
      StopsWith(turns, maxAttempts, k, asked,
        Record(k, NO_ACTION, "JEV_ROUTING_ABSTAINED", "deterministic", proposal.reason), "NO_ACTION");
    } else if proposal.Fails? {
      if proposal.error.decision.Some? {
        ErrorDecisionIsBounded(turn.post);
      }
      ErrorLeads(turns, maxAttempts, k, asked, proposal.error, turn.sample);
    } else {
      PatchLeads(turns, maxAttempts, k, asked, proposal.patch);
    }
  }

  // ----- Whole runs -----

  lemma {:induction false} RunEnds(turns: seq<Turn>, maxAttempts: nat, k: nat, s: State) returns (last: nat)
    requires Between(s, k) && 1 <= k <= maxAttempts <= |turns|
    ensures Ended(turns, maxAttempts, last, Run(s, k, maxAttempts, turns))
    decreases maxAttempts - k
  {
    AttemptLeads(turns, maxAttempts, k, s);
    hide Ended, Between, Attempt;
    var p := Attempt(s, k, maxAttempts, turns[k - 1]);
    if p.step.Continue? {
      last := RunEnds(turns, maxAttempts, k + 1, p.state);
    } else {
      last := k;
    }
  }

  /**
   Every run of the proposal loop, for every sequence of worker replies: between one and `maxAttempts` proposals and
   never the throw after the loop; no patch validated twice; regenerating retries with pairwise distinct reason codes;
   and a publication only as the last act, right after its own validation and with the files that validation returned.
   */
  lemma ProposalLoopIsSafe(turns: seq<Turn>, maxAttempts: nat, context: Option<string>)
    requires 1 <= maxAttempts <= |turns|
    ensures var p := Run(Start(context), 1, maxAttempts, turns);
      && 1 <= Proposals(p.state.journal) <= maxAttempts
      && !p.step.Continue? && !p.step.Exhausted?
      && PatchesDistinct(p.state.journal)
      && CodesDistinct(p.state.attempts)
      && PublishesLast(turns, p.state.journal)
  {
    var last := RunEnds(turns, maxAttempts, 1, Start(context));
    hide Run, PatchesDistinct, CodesDistinct, PublishesLast, Proposals;
  }

  /**
   How every run reports: one record per proposal except for the rate-limit stop, all but the last a retry, and
   DISPATCHED exactly when the attempt that asked last published its files and the publication was accepted.
   */
  lemma ProposalLoopReports(turns: seq<Turn>, maxAttempts: nat, context: Option<string>)
    requires 1 <= maxAttempts <= |turns|
    ensures var p := Run(Start(context), 1, maxAttempts, turns); var k := Proposals(p.state.journal);
      1 <= k <= |turns| && RecordsEnd(k, p) && DispatchEnds(turns, k, p)
  {
    var last := RunEnds(turns, maxAttempts, 1, Start(context));
    hide Run, PatchesDistinct, CodesDistinct, PublishesLast, Proposals, RecordsEnd, DispatchEnds;
  }
}
