/**
 What one cycle of the runtime does with the replies of its ticks (scripts/autopilot-runtime.js), when every write
 succeeds: which reply counts, how the counters move, and what is remembered.
 */
module AutopilotMeaning {
  import opened Numbers
  import opened Prelude
  import opened Text
  import opened AutopilotRuntime

  // ----- Texts -----

  lemma {:induction false} TrimStartSplits(s: string) returns (blank: string)
    ensures Blank(blank) && s == blank + TrimStart(s)
  {
    hide IsSpace;
    if |s| > 0 && IsSpace(s[0]) {
      var rest := TrimStartSplits(s[1..]);
      blank := [s[0]] + rest;
      assert s == [s[0]] + s[1..];
    } else {
      blank := "";
    }
  }

  lemma {:induction false} TrimEndSplits(s: string) returns (blank: string)
    ensures Blank(blank) && s == TrimEnd(s) + blank
    ensures TrimEnd(s) != "" ==> TrimEnd(s)[0] == s[0]
    decreases |s|
  {
    hide IsSpace;
    if |s| > 0 && IsSpace(s[|s| - 1]) {
      var rest := TrimEndSplits(s[..|s| - 1]);
      blank := rest + [s[|s| - 1]];
      assert s == s[..|s| - 1] + [s[|s| - 1]];
    } else {
      blank := "";
    }
  }

  /** Trimming drops white space on both sides and leaves text that neither begins nor ends with it. */
  lemma TrimIs(s: string) returns (left: string, right: string)
    ensures Blank(left) && Blank(right) && s == left + Trim(s) + right
    ensures Trim(s) != "" ==> !IsSpace(Trim(s)[0]) && !IsSpace(Trim(s)[|Trim(s)| - 1])
  {
    hide IsSpace, Blank;
    left := TrimStartSplits(s);
    right := TrimEndSplits(TrimStart(s));
  }

  // ----- Ticks -----

  /** The status of an answer; a blank one stands for an abstention. */
  function StatusIn(reply: Reply): string
    requires reply.Answer?
  {
    if Blank(reply.status) then "ABSTAINED" else Trim(reply.status)
  }

  /** The tick did something that counts, or decided not to. */
  predicate Counts(reply: Reply) {
    && reply.Answer?
    && StatusIn(reply) in {"EXECUTION_DISPATCHED", "DUPLICATE_EXECUTION_SUPPRESSED", "ABSTAINED", "WAITING_RATE_LIMIT"}
  }

  /** What is remembered of a tick that counts. */
  function RecordOf(reply: Reply): TickRecord
    requires reply.Answer?
  {
    TickRecord(
      StatusIn(reply),
      if Blank(reply.reason) then "UNSPECIFIED" else Trim(reply.reason),
      if reply.headSha.None? || |reply.headSha.value| <= 128 then reply.headSha else Some(reply.headSha.value[..128]),
      if reply.workflowRunId.Some? && -9007199254740991 <= reply.workflowRunId.value <= 9007199254740991
      then reply.workflowRunId else None)
  }

  /** The message of a tick that does not count. */
  function MessageOf(reply: Reply): string {
    match reply
    case Failure(message) => message
    case Answer(_, reason, _, _) =>
      if StatusIn(reply) != "EXECUTION_NOT_DISPATCHED" then "AUTOPILOT_TICK_STATUS_UNSUPPORTED"
      else if Blank(reason) then "EXECUTION_NOT_DISPATCHED"
      else Trim(reason)
  }

  lemma JudgedAs(reply: Reply)
    ensures Judge(reply) == if Counts(reply) then Ok(RecordOf(reply)) else Err(MessageOf(reply))
  {
    hide Blank, Trim;
    if reply.Answer? {
      BlankIsNoText(reply.status);
      BlankIsNoText(reply.reason);
    }
  }

  lemma BlankIsNoText(s: string)
    ensures SafeText(s) == if Blank(s) then None else Some(Trim(s))
  {
    hide Blank;
  }

  // ----- A cycle -----

  /** The first `n` ticks do not count. */
  predicate NoneCounts(inputs: seq<Attempt>, n: nat)
    requires n <= |inputs|
  {
    forall k :: 0 <= k < n ==> !Counts(inputs[k].reply)
  }

  predicate AllWritten(inputs: seq<Attempt>) {
    forall k :: 0 <= k < |inputs| ==> inputs[k].write.Written? && inputs[k].failWrite.Written?
  }

  /** The state at the beginning of a cycle, and after some retries. */
  function CycleState(c: Config, s: RtState, now: int, retries: nat, heartbeat: int): RtState {
    s.(status := "RETRYING", iteration := s.iteration + 1, retryCount := s.retryCount + retries,
    lastHeartbeatAt := heartbeat, lastCycleAt := Some(now), nextCycleAt := Some(now + c.intervalMs),
    liveAuthority := "NONE", productionMutationAllowed := false, aiAuthority := "ZERO_AUTHORITY")
  }

  /** The state a tick that counts leaves. */
  function CountedState(s: RtState, reply: Reply, now: int): RtState
    requires reply.Answer?
  {
    var dispatched := StatusIn(reply) == "EXECUTION_DISPATCHED";
    s.(status := if dispatched then "RUNNING" else "IDLE",
    completedCount := s.completedCount + if dispatched then 1 else 0,
    lastSuccessfulWorkAt := if StatusIn(reply) == "WAITING_RATE_LIMIT" then s.lastSuccessfulWorkAt else Some(now),
    lastHeartbeatAt := now, lastResult := Some(RecordOf(reply)))
  }

  /** The state of a cycle none of whose ticks counted. */
  function GivenUpState(s: RtState, message: string, now: int): RtState {
    s.(status := "BLOCKED", failureCount := s.failureCount + 1, blockedCount := s.blockedCount + 1,
    lastHeartbeatAt := now,
    lastResult := Some(TickRecord("BLOCKED", if message == "" then "AUTOPILOT_TICK_FAILED" else message, None, None)))
  }

  function HeartbeatAt(now: int, inputs: seq<Attempt>, n: nat): int
    requires n <= |inputs|
  {
    if n == 0 then now else inputs[n - 1].failedAt
  }

  /** After `n` ticks that do not count the cycle stands at attempt `n + 1`, with as many retries. */
  lemma {:induction false} RetriesPass(
    c: Config, s: RtState, disk: Disk, now: int, inputs: seq<Attempt>, n: nat, at: nat, p: Pass)
    requires ValidConfig(c) && |inputs| == c.maxAttempts && AllWritten(inputs)
    requires at <= n < c.maxAttempts && NoneCounts(inputs, n)
    requires p.next == Some(at + 1) && p.state == CycleState(c, s, now, at, HeartbeatAt(now, inputs, at))
    requires p.disk == Stored(p.state)
    ensures var after := CycleState(c, s, now, n, HeartbeatAt(now, inputs, n));
      Attempts(c, p, inputs[at..]) == Attempts(c, Pass(after, Stored(after), Some(n + 1)), inputs[n..])
    decreases n - at
  {
    hide Judge, Counts, CountedState;
    if at < n {
      var a := inputs[at];
      JudgedAs(a.reply);
      assert inputs[at..][0] == a && inputs[at..][1..] == inputs[at + 1..];
      var retried := CycleState(c, s, now, at + 1, a.failedAt);
      assert Tried(c, p.state, p.disk, at + 1, a) == Pass(retried, Stored(retried), Some(at + 2));
      RetriesPass(c, s, disk, now, inputs, n, at + 1, Pass(retried, Stored(retried), Some(at + 2)));
    }
  }

  /**
   What a cycle does, for every state, file, clock and replies, when its writes succeed. If a tick counts, the first
   that does decides: the ticks before it are counted as retries, and its result is what is remembered. If none does,
   the cycle counts one failure and one block, and remembers the last message.
   */
  lemma FirstCountingTickDecides(c: Config, s: RtState, disk: Disk, now: int, inputs: seq<Attempt>, n: nat)
    requires ValidConfig(c) && |inputs| == c.maxAttempts && AllWritten(inputs)
    requires n < c.maxAttempts && NoneCounts(inputs, n) && (Counts(inputs[n].reply) || n == c.maxAttempts - 1)
    ensures var tried := CycleState(c, s, now, n, HeartbeatAt(now, inputs, n));
      var after := if Counts(inputs[n].reply) then CountedState(tried, inputs[n].reply, inputs[n].answeredAt)
        else GivenUpState(tried, MessageOf(inputs[n].reply), inputs[n].failedAt);
      WholeCycle(c, s, disk, now, Written, inputs) == Pass(after, Stored(after), None)
  {
    hide Judge, Counts, MessageOf, RecordOf, StatusIn;
    var begun := Begun(c, s, disk, now, Written);
    var tried := CycleState(c, s, now, n, HeartbeatAt(now, inputs, n));
    assert inputs[0..] == inputs;
    RetriesPass(c, s, disk, now, inputs, n, 0, begun);
    JudgedAs(inputs[n].reply);
    assert inputs[n..][0] == inputs[n];
    LastTick(c, tried, n, inputs[n]);
    Settled(c, Tried(c, tried, Stored(tried), n + 1, inputs[n]), inputs[n..][1..]);
  }

  lemma Settled(c: Config, p: Pass, inputs: seq<Attempt>)
    requires p.next.None?
    ensures Attempts(c, p, inputs) == p
  {
  }

  lemma LastTick(c: Config, s: RtState, n: nat, a: Attempt)
    requires a.write.Written? && a.failWrite.Written? && (Counts(a.reply) || n + 1 == c.maxAttempts)
    requires s == s.(liveAuthority := "NONE", productionMutationAllowed := false, aiAuthority := "ZERO_AUTHORITY")
    ensures var after := if Counts(a.reply) then CountedState(s, a.reply, a.answeredAt)
        else GivenUpState(s, MessageOf(a.reply), a.failedAt);
      Tried(c, s, Stored(s), n + 1, a) == Pass(after, Stored(after), None)
  {
    hide Judge, MessageOf, StatusIn;
    JudgedAs(a.reply);
  }
}
