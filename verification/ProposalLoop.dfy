/**
 `executeGithubActionsRunner` (scripts/autopilot-dispatch-retry.js): ask a worker for a patch, validate it, publish it,
 and retry a bounded number of times with a memory of patches and failure codes. The worker's answers, the validation
 of a patch and the publication are inputs; everything the loop does outside is written to a journal.
 */
module ProposalLoop {
  import opened Prelude
  import opened RateLimit
  import opened Text

  const DEFAULT_MAX_ATTEMPTS: nat := 3
  const DEFAULT_BACKOFF_MS: nat := 1000

  const RETRYABLE_PROPOSAL_FAILURE_CODES := {
    "CODING_PROPOSAL_FAILED_CLOSED", "CODING_PROPOSAL_INVALID", "CODING_PROPOSAL_JSON_INVALID",
    "CODING_PROPOSAL_PATCH_REQUIRED", "CODING_PROPOSAL_RESPONSE_INVALID", "CODING_PROPOSAL_SHAPE_INVALID",
    "CODING_PROPOSAL_TOO_LARGE", "CODING_PROPOSAL_UNAVAILABLE", "SANDBOX_PATCH_APPLY_CHECK_FAILED",
    "SANDBOX_PATCH_NORMALIZED_APPLY_CHECK_FAILED", "SANDBOX_BUILD_FAILED", "SANDBOX_PATCH_FILE_COUNT_INVALID",
    "SANDBOX_PATCH_REQUIRED", "SANDBOX_PATCH_TOO_LARGE"
  }

  function UpToColon(s: string): string {
    if |s| == 0 || s[0] == ':' then "" else [s[0]] + UpToColon(s[1..])
  }

  /** A listed code on its own, or a listed sandbox code followed by a colon and details. */
  function RetryableProposalFailureCode(reason: string): Option<string> {
    var code := UpToColon(reason);
    if code in RETRYABLE_PROPOSAL_FAILURE_CODES && (code == reason || "SANDBOX_" <= code) then Some(code) else None
  }

  // ----- What the worker, the validation and the publication return -----

  datatype Post =
    | NotSent(failure: string)
    | Answered(status: nat, header: RetryAfter, payload: Payload, patch: Option<string>, observedAt: int)

  datatype Validation = Validated(files: seq<string>) | Rejected(reason: string)

  datatype Publication = Accepted | NotAccepted | NotPublished(failure: string)

  /** Everything one attempt meets; `receiptValid` is true unless a causal request gets a wrong receipt. */
  datatype Turn = Turn(
    post: Post, receiptValid: bool, validation: Validation, publication: Publication,
    contextForPatch: Option<string>, sample: Option<real>)

  /** A decision that is no bounded one is kept as the worker's status and the class that may be reported of it. */
  datatype InvalidDecision = InvalidDecision(workerStatus: string, failureClass: string)

  datatype WorkerError = WorkerError(
    reason: string, invalid: Option<InvalidDecision>, decision: Option<Remediation>, workerStop: bool,
    rateLimit: Option<Evidence>)

  function PlainError(reason: string): WorkerError {
    WorkerError(reason, None, None, false, None)
  }

  predicate IsUpperWord(s: string) {
    1 <= |s| <= 64 && 'A' <= s[0] <= 'Z' && forall i :: 0 <= i < |s| ==>
      'A' <= s[i] <= 'Z' || IsDigit(s[i]) || s[i] == '_'
  }

  predicate NamesCredential(s: string) {
    || Contains(s, "TOKEN") || Contains(s, "SECRET") || Contains(s, "PASSWORD") || Contains(s, "CREDENTIAL_VALUE")
    || Contains(s, "PRIVATE_KEY")
  }

  /** The failure class recorded for an invalid decision: its own when it is a plain word, the default otherwise. */
  function DiagnosticClass(failureClass: string): string {
    if IsUpperWord(failureClass) && !NamesCredential(failureClass) then failureClass else "deterministic"
  }

  predicate WorkerStops(p: Payload) {
    || p.status in {Some("WAITING_RATE_LIMIT"), Some("BLOCKED_RATE_LIMIT")}
    || p.error == Some("WAITING_PROVIDER_CAPACITY")
    || (p.status == Some("CODING_PROPOSAL_FAILED_CLOSED") && p.providerStopReason.Some?)
  }

  /** The error an authorized post raises, if any. */
  function PostError(post: Post): Option<WorkerError> {
    if post.NotSent? then Some(PlainError(post.failure))
    else
      var p := post.payload;
      var limit := RateLimitEvidence(post.status, post.header, p, post.observedAt);
      if !(200 <= post.status <= 299) then
        var decision := if p.remediation.Some? then BoundedRemediationDecision(p.remediation.value) else None;
        if p.remediation.Some? && decision.None? then
          var invalid := InvalidDecision(SafeWorkerStatus(p.status), DiagnosticClass(p.remediation.value.failureClass));
          Some(WorkerError("CODING_REMEDIATION_DECISION_INVALID", Some(invalid), None, false, None))
        else
          var reason := if p.error.Some? then p.error.value else "AUTOPILOT_WORKER_HTTP_" + Decimal(post.status);
          Some(WorkerError(reason, None, decision, limit.Some? && WorkerStops(p), limit))
      else if limit.Some? then
        Some(WorkerError(
          if !WorkerStops(p) then limit.value.code
          else if p.status.Some? && p.status.value != "" then p.status.value
          else if p.error.Some? then p.error.value else "",
          None, None, WorkerStops(p), limit))
      else None
  }

  datatype Proposal = Abstains(reason: string) | Ready(patch: string) | Fails(error: WorkerError)

  predicate IsReasonText(s: string) {
    1 <= |s| <= 160 && forall i :: 0 <= i < |s| ==> 'A' <= s[i] <= 'Z' || IsDigit(s[i]) || s[i] in {'_', ':', '-'}
  }

  function AbstentionReason(reason: Option<string>): string {
    if reason.Some? && IsReasonText(reason.value) then reason.value else "NON_CODE_AUTOFIX_FORBIDDEN"
  }

  function ProposalOf(turn: Turn): Proposal {
    var error := PostError(turn.post);
    if error.Some? then Fails(error.value)
    else if turn.post.payload.status == Some("JEV_ROUTING_ABSTAINED") then
      Abstains(AbstentionReason(turn.post.payload.reason))
    else if turn.post.payload.status != Some("PROPOSAL_READY") || turn.post.patch.None? then
      Fails(PlainError("CODING_PROPOSAL_UNAVAILABLE"))
    else if !turn.receiptValid then Fails(PlainError("CAUSAL_PROPOSAL_RECEIPT_REQUIRED"))
    else Ready(turn.post.patch.value)
  }

  // ----- The loop over values -----

  datatype Record = Record(attempt: nat, decision: Decision, workerStatus: string, failureClass: string, reason: string)

  /** What the loop does outside its own variables; `Exhausted` below is the throw after the loop. */
  datatype Act =
    | Proposed(attempt: nat, feedback: Option<string>, context: Option<string>)
    | Validating(attempt: nat, patch: string)
    | Publishing(attempt: nat, files: seq<string>)
    | Sleeping(ms: int)

  datatype State = State(
    attempts: seq<Record>, journal: seq<Act>, seenPatches: set<string>, seenCodes: set<string>,
    feedback: Option<string>, context: Option<string>)

  datatype Step =
    | Continue
    | Finish(status: string, reason: string, changedFiles: seq<string>)
    | Throw(error: string)
    | Exhausted

  datatype Progress = Progress(state: State, step: Step)

  function Recorded(
    s: State, attempt: nat, decision: Decision, workerStatus: string, failureClass: string, reason: string): State
  {
    s.(attempts := s.attempts + [Record(attempt, decision, workerStatus, failureClass, reason)])
  }

  function Did(s: State, act: Act): State {
    s.(journal := s.journal + [act])
  }

  function Failing(
    s: State, attempt: nat, workerStatus: string, failureClass: string, reason: string, status: string): Progress
  {
    Progress(Recorded(s, attempt, FAILED_CLOSED, workerStatus, failureClass, reason), Finish(status, reason, []))
  }

  /** A deterministic failure: retried once per code while attempts remain. */
  function RejectCode(s: State, attempt: nat, maxAttempts: nat, code: string): Progress {
    var repeated := code in s.seenCodes;
    var remembered := s.(seenCodes := s.seenCodes + {code});
    if attempt < maxAttempts && !repeated then
      var retried := Recorded(remembered, attempt, RETRY, "PROPOSAL_REJECTED", "deterministic", code);
      Progress(retried.(feedback := Some(code)), Continue)
    else
      Progress(Recorded(remembered, attempt, FAILED_CLOSED, "PROPOSAL_REJECTED", "deterministic", code),
        Finish("FAILED_TO_REMEDIATE", code, []))
  }

  function RateLimited(
    s: State, attempt: nat, maxAttempts: nat, code: string, limit: Option<Evidence>, sample: Option<real>): Progress
  {
    if code == "RATE_LIMITED" && attempt < maxAttempts then
      var delay := if limit.Some? && limit.value.retryAfterMs.Some? then limit.value.retryAfterMs.value
        else BoundedBackoffMs(DEFAULT_BACKOFF_MS, attempt, sample);
      Progress(Did(Recorded(s, attempt, RETRY, "RATE_LIMITED", "transient", code), Sleeping(delay)), Continue)
    else Progress(s, Finish("BLOCKED_RATE_LIMIT", code, []))
  }

  function Remediate(
    s: State, attempt: nat, maxAttempts: nat, code: string, d: Remediation, sample: Option<real>): Progress
  {
    if d.outcome == "VALID_NO_ACTION" then
      Progress(Recorded(s, attempt, NO_ACTION, "VALID_NO_ACTION", "deterministic", "NO_ACTION_WARRANTED"),
        Finish("NO_ACTION", "NO_ACTION_WARRANTED", []))
    else if d.outcome == "FAILED_TO_REMEDIATE" then
      var rejected := d.failureClass == "PROPOSAL_REJECTED";
      var repeated := rejected && code in s.seenCodes;
      var remembered := if rejected then s.(seenCodes := s.seenCodes + {code}) else s;
      if d.retryable && attempt < maxAttempts && attempt < d.maxAttempts && !repeated then
        var retried := Recorded(remembered, attempt, RETRY, "REMEDIATION_RETRY", d.failureClass, code);
        Progress(if d.recovery == "REGENERATE_PROPOSAL" then retried.(feedback := Some(code))
          else Did(retried, Sleeping(BoundedBackoffMs(DEFAULT_BACKOFF_MS, attempt, sample))), Continue)
      else Failing(remembered, attempt, "REMEDIATION_EXHAUSTED", d.failureClass, code, "FAILED_TO_REMEDIATE")
    else Failing(s, attempt, "FAILED_CLOSED", d.failureClass, code, "FAILED_CLOSED")
  }

  predicate IsCodeText(reason: string) {
    1 <= |reason| <= 160 && forall i :: 0 <= i < |reason| ==> IsStatusChar(reason[i]) && reason[i] != '.'
  }

  function RemediationCode(reason: string): string {
    if IsCodeText(reason) then reason else "CODING_REMEDIATION_FAILURE"
  }

  function LimitCode(e: WorkerError): Option<string> {
    var named := ProviderRateLimitCode(Some(e.reason));
    if named.Some? then named
    else if e.rateLimit.Some? then ProviderRateLimitCode(Some(e.rateLimit.value.code))
    else None
  }

  /** The catch block after a failed proposal, in the order of its tests. */
  function OnProposalError(s: State, attempt: nat, maxAttempts: nat, e: WorkerError, sample: Option<real>): Progress {
    if e.invalid.Some? then
      Failing(s, attempt, e.invalid.value.workerStatus, e.invalid.value.failureClass, e.reason, "FAILED_CLOSED")
    else if e.decision.Some? && e.decision.value.outcome == "FAILED_CLOSED" && e.decision.value.recovery == "STOP" then
      Failing(s, attempt, "FAILED_CLOSED", e.decision.value.failureClass, RemediationCode(e.reason), "FAILED_CLOSED")
    else if e.workerStop && e.rateLimit.Some? then
      Progress(Recorded(s, attempt, NO_ACTION, "WAITING_RATE_LIMIT", "transient", "WAITING_RATE_LIMIT"),
        Finish("WAITING_RATE_LIMIT", "WAITING_RATE_LIMIT", []))
    else if LimitCode(e).Some? then RateLimited(s, attempt, maxAttempts, LimitCode(e).value, e.rateLimit, sample)
    else if e.decision.Some?
      then Remediate(s, attempt, maxAttempts, RemediationCode(e.reason), e.decision.value, sample)
    else
      var code := RetryableProposalFailureCode(e.reason);
      if code.None? then Progress(s, Throw(e.reason)) else RejectCode(s, attempt, maxAttempts, code.value)
  }

  predicate IsApplyCheck(code: string) {
    code == "SANDBOX_PATCH_APPLY_CHECK_FAILED" || code == "SANDBOX_PATCH_NORMALIZED_APPLY_CHECK_FAILED"
  }

  /** A patch whose validation fails. */
  function OnRejectedPatch(s: State, attempt: nat, maxAttempts: nat, turn: Turn, reason: string): Progress {
    var code := RetryableProposalFailureCode(reason);
    if code.None? then Progress(s, Throw(reason))
    else
      var after := RejectCode(s, attempt, maxAttempts, code.value);
      if after.step.Continue? && IsApplyCheck(code.value) then
        Progress(after.state.(context := turn.contextForPatch), Continue)
      else after
  }

  /** A patch whose validation returned files. */
  function OnValidatedPatch(s: State, attempt: nat, turn: Turn, files: seq<string>): Progress {
    var publishing := Did(s, Publishing(attempt, files));
    match turn.publication
    case NotPublished(failure) => Progress(publishing, Throw(failure))
    case NotAccepted => Progress(publishing, Throw("CODING_PUBLISH_VALIDATION_REQUIRED"))
    case Accepted =>
      Progress(Recorded(publishing, attempt, DISPATCHED, "EXECUTION_ACCEPTED", "", ""), Finish("DISPATCHED", "", files))
  }

  function OnPatch(s: State, attempt: nat, maxAttempts: nat, turn: Turn, patch: string): Progress {
    if patch in s.seenPatches then
      Failing(s, attempt, "PROPOSAL_REJECTED", "deterministic", "CODING_PROPOSAL_REPEATED", "FAILED_TO_REMEDIATE")
    else
      var validating := Did(s.(seenPatches := s.seenPatches + {patch}), Validating(attempt, patch));
      if turn.validation.Rejected? then OnRejectedPatch(validating, attempt, maxAttempts, turn, turn.validation.reason)
      else OnValidatedPatch(validating, attempt, turn, turn.validation.files)
  }

  function Attempt(s: State, attempt: nat, maxAttempts: nat, turn: Turn): Progress {
    var asked := Did(s, Proposed(attempt, s.feedback, s.context));
    match ProposalOf(turn)
    case Abstains(reason) =>
      Progress(Recorded(asked, attempt, NO_ACTION, "JEV_ROUTING_ABSTAINED", "deterministic", reason),
        Finish("NO_ACTION", reason, []))
    case Fails(error) => OnProposalError(asked, attempt, maxAttempts, error, turn.sample)
    case Ready(patch) => OnPatch(asked, attempt, maxAttempts, turn, patch)
  }

  function Start(context: Option<string>): State {
    State([], [], {}, {}, None, context)
  }

  /** The loop from attempt `attempt` on; `turns[k - 1]` is what attempt `k` meets. */
  function Run(s: State, attempt: nat, maxAttempts: nat, turns: seq<Turn>): Progress
    requires attempt >= 1 && |turns| >= maxAttempts
    decreases maxAttempts + 1 - attempt
  {
    if attempt > maxAttempts then Progress(s, Exhausted)
    else
      var p := Attempt(s, attempt, maxAttempts, turns[attempt - 1]);
      if p.step.Continue? then Run(p.state, attempt + 1, maxAttempts, turns) else p
  }

  lemma RunUnfolds(s: State, attempt: nat, maxAttempts: nat, turns: seq<Turn>)
    requires attempt >= 1 && |turns| >= maxAttempts
    ensures attempt > maxAttempts ==> Run(s, attempt, maxAttempts, turns) == Progress(s, Exhausted)
    ensures attempt <= maxAttempts ==>
      var p := Attempt(s, attempt, maxAttempts, turns[attempt - 1]);
      Run(s, attempt, maxAttempts, turns) == if p.step.Continue? then Run(p.state, attempt + 1, maxAttempts, turns)
        else p
  {
    hide Attempt;
  }

  // ----- The loop as the source runs it -----

  class Runner {
    const maxAttempts: nat
    var attempts: seq<Record>
    var journal: seq<Act>
    var seenPatches: set<string>
    var seenCodes: set<string>
    var feedback: Option<string>
    var context: Option<string>

    function Abstract(): State
      reads this
    {
      State(attempts, journal, seenPatches, seenCodes, feedback, context)
    }

    constructor (maxAttempts: nat, context: Option<string>)
      ensures this.maxAttempts == maxAttempts && Abstract() == Start(context)
    {
      this.maxAttempts := maxAttempts;
      attempts, journal, seenPatches, seenCodes, feedback := [], [], {}, {}, None;
      this.context := context;
    }

    method Push(attempt: nat, decision: Decision, workerStatus: string, failureClass: string, reason: string)
      modifies this`attempts
      ensures Abstract() == Recorded(old(Abstract()), attempt, decision, workerStatus, failureClass, reason)
    {
      attempts := attempts + [Record(attempt, decision, workerStatus, failureClass, reason)];
    }

    method HandleCode(attempt: nat, code: string) returns (step: Step)
      modifies this
      ensures Progress(Abstract(), step) == RejectCode(old(Abstract()), attempt, maxAttempts, code)
    {
      var repeated := code in seenCodes;
      seenCodes := seenCodes + {code};
      var retry := attempt < maxAttempts && !repeated;
      Push(attempt, if retry then RETRY else FAILED_CLOSED, "PROPOSAL_REJECTED", "deterministic", code);
      if retry {
        feedback := Some(code);
        return Continue;
      }
      return Finish("FAILED_TO_REMEDIATE", code, []);
    }

    method HandleDecision(attempt: nat, code: string, d: Remediation, sample: Option<real>) returns (step: Step)
      modifies this
      ensures Progress(Abstract(), step) == Remediate(old(Abstract()), attempt, maxAttempts, code, d, sample)
    {
      hide BoundedBackoffMs;
      if d.outcome == "VALID_NO_ACTION" {
        Push(attempt, NO_ACTION, "VALID_NO_ACTION", "deterministic", "NO_ACTION_WARRANTED");
        return Finish("NO_ACTION", "NO_ACTION_WARRANTED", []);
      }
      if d.outcome == "FAILED_TO_REMEDIATE" {
        var repeated := d.failureClass == "PROPOSAL_REJECTED" && code in seenCodes;
        if d.failureClass == "PROPOSAL_REJECTED" {
          seenCodes := seenCodes + {code};
        }
        if d.retryable && attempt < maxAttempts && attempt < d.maxAttempts && !repeated {
          Push(attempt, RETRY, "REMEDIATION_RETRY", d.failureClass, code);
          if d.recovery == "REGENERATE_PROPOSAL" {
            feedback := Some(code);
          } else {
            journal := journal + [Sleeping(BoundedBackoffMs(DEFAULT_BACKOFF_MS, attempt, sample))];
          }
          return Continue;
        }
        Push(attempt, FAILED_CLOSED, "REMEDIATION_EXHAUSTED", d.failureClass, code);
        return Finish("FAILED_TO_REMEDIATE", code, []);
      }
      Push(attempt, FAILED_CLOSED, "FAILED_CLOSED", d.failureClass, code);
      return Finish("FAILED_CLOSED", code, []);
    }

    method HandleError(attempt: nat, e: WorkerError, sample: Option<real>) returns (step: Step)
      modifies this
      ensures Progress(Abstract(), step) == OnProposalError(old(Abstract()), attempt, maxAttempts, e, sample)
    {
      hide BoundedBackoffMs, Remediate, RejectCode, RetryableProposalFailureCode, LimitCode, RemediationCode;
      if e.invalid.Some? {
        Push(attempt, FAILED_CLOSED, e.invalid.value.workerStatus, e.invalid.value.failureClass, e.reason);
        return Finish("FAILED_CLOSED", e.reason, []);
      }
      if e.decision.Some? && e.decision.value.outcome == "FAILED_CLOSED" && e.decision.value.recovery == "STOP" {
        Push(attempt, FAILED_CLOSED, "FAILED_CLOSED", e.decision.value.failureClass, RemediationCode(e.reason));
        return Finish("FAILED_CLOSED", RemediationCode(e.reason), []);
      }
      if e.workerStop && e.rateLimit.Some? {
        Push(attempt, NO_ACTION, "WAITING_RATE_LIMIT", "transient", "WAITING_RATE_LIMIT");
        return Finish("WAITING_RATE_LIMIT", "WAITING_RATE_LIMIT", []);
      }
      var limited := LimitCode(e);
      if limited.Some? {
        if limited.value == "RATE_LIMITED" && attempt < maxAttempts {
          Push(attempt, RETRY, "RATE_LIMITED", "transient", limited.value);
          var delay := if e.rateLimit.Some? && e.rateLimit.value.retryAfterMs.Some?
            then e.rateLimit.value.retryAfterMs.value
            else BoundedBackoffMs(DEFAULT_BACKOFF_MS, attempt, sample);
          journal := journal + [Sleeping(delay)];
          return Continue;
        }
        return Finish("BLOCKED_RATE_LIMIT", limited.value, []);
      }
      if e.decision.Some? {
        step := HandleDecision(attempt, RemediationCode(e.reason), e.decision.value, sample);
        return;
      }
      var code := RetryableProposalFailureCode(e.reason);
      if code.None? { return Throw(e.reason); }
      step := HandleCode(attempt, code.value);
    }

    method HandlePatch(attempt: nat, turn: Turn, patch: string) returns (step: Step)
      modifies this
      ensures Progress(Abstract(), step) == OnPatch(old(Abstract()), attempt, maxAttempts, turn, patch)
    {
      hide RejectCode, RetryableProposalFailureCode;
      if patch in seenPatches {
        Push(attempt, FAILED_CLOSED, "PROPOSAL_REJECTED", "deterministic", "CODING_PROPOSAL_REPEATED");
        return Finish("FAILED_TO_REMEDIATE", "CODING_PROPOSAL_REPEATED", []);
      }
      seenPatches := seenPatches + {patch};
      journal := journal + [Validating(attempt, patch)];
      if turn.validation.Rejected? {
        var code := RetryableProposalFailureCode(turn.validation.reason);
        if code.None? { return Throw(turn.validation.reason); }
        step := HandleCode(attempt, code.value);
        if step.Continue? && IsApplyCheck(code.value) {
          context := turn.contextForPatch;
        }
        return;
      }
      var files := turn.validation.files;
      journal := journal + [Publishing(attempt, files)];
      if turn.publication.NotPublished? { return Throw(turn.publication.failure); }
      if turn.publication.NotAccepted? { return Throw("CODING_PUBLISH_VALIDATION_REQUIRED"); }
      Push(attempt, DISPATCHED, "EXECUTION_ACCEPTED", "", "");
      return Finish("DISPATCHED", "", files);
    }

    /** The loop body. */
    method AttemptOnce(attempt: nat, turn: Turn) returns (step: Step)
      modifies this
      ensures Progress(Abstract(), step) == Attempt(old(Abstract()), attempt, maxAttempts, turn)
    {
      hide OnProposalError, OnPatch, ProposalOf;
      journal := journal + [Proposed(attempt, feedback, context)];
      match ProposalOf(turn)
      case Abstains(reason) =>
        Push(attempt, NO_ACTION, "JEV_ROUTING_ABSTAINED", "deterministic", reason);
        return Finish("NO_ACTION", reason, []);
      case Fails(error) => step := HandleError(attempt, error, turn.sample);
      case Ready(patch) => step := HandlePatch(attempt, turn, patch);
    }

    /** The whole loop over the turns it meets. */
    method Execute(turns: seq<Turn>) returns (step: Step)
      requires |turns| >= maxAttempts
      modifies this
      ensures 1 <= maxAttempts <= DEFAULT_MAX_ATTEMPTS ==>
        Progress(Abstract(), step) == Run(old(Abstract()), 1, maxAttempts, turns)
      ensures !(1 <= maxAttempts <= DEFAULT_MAX_ATTEMPTS) ==>
        Progress(Abstract(), step) == Progress(old(Abstract()), Throw("AUTOPILOT_PROPOSAL_RETRY_LIMIT_INVALID"))
    {
      hide *;
      if maxAttempts < 1 || maxAttempts > DEFAULT_MAX_ATTEMPTS {
        return Throw("AUTOPILOT_PROPOSAL_RETRY_LIMIT_INVALID");
      }
      ghost var target := Run(Abstract(), 1, maxAttempts, turns);
      var attempt := 1;
      while attempt <= maxAttempts
        invariant 1 <= attempt <= maxAttempts + 1
        invariant Run(Abstract(), attempt, maxAttempts, turns) == target
      {
        RunUnfolds(Abstract(), attempt, maxAttempts, turns);
        step := AttemptOnce(attempt, turns[attempt - 1]);
        if !step.Continue? { return; }
        attempt := attempt + 1;
      }
      RunUnfolds(Abstract(), attempt, maxAttempts, turns);
      step := Exhausted;
    }
  }
}
