/**
 Laws of the persistent runtime over every run, with crashes between any two writes and writes that may fail: what is on
 disk always loads, its counters only grow, and they keep their balance.
 */
module AutopilotLaws {
  import opened Numbers
  import opened Prelude
  import opened Text
  import opened AutopilotRuntime

  const CLOCK_LIMIT: int := MAX_SAFE - MAX_INTERVAL_MS
  const RUN_LIMIT: int := MAX_SAFE / 4

  // ----- Stored states load -----

  /** Everything `ValidateState` asks of a state apart from its five counters. */
  predicate Formed(s: RtState) {
    && s.schemaVersion == SCHEMA_VERSION && s.liveAuthority == "NONE" && !s.productionMutationAllowed
    && s.aiAuthority == "ZERO_AUTHORITY"
    && s.status in {"STARTING", "RUNNING", "IDLE", "RETRYING", "BLOCKED", "STOPPING", "STOPPED"}
    && s.stateRecovery in {"FRESH", "RESTORED", "CORRUPT"}
    && IsSafeCount(s.lastHeartbeatAt) && IsSafeStamp(s.lastSuccessfulWorkAt) && IsSafeStamp(s.lastCycleAt)
    && IsSafeStamp(s.nextCycleAt) && IsSafeStamp(s.queueDepth)
    && (s.currentTask.Some? ==> |s.currentTask.value| <= 256)
    && ValidResult(s.lastResult)
  }

  predicate SafeCounters(s: RtState) {
    && IsSafeCount(s.iteration) && IsSafeCount(s.completedCount) && IsSafeCount(s.failureCount)
    && IsSafeCount(s.retryCount) && IsSafeCount(s.blockedCount)
  }

  lemma ValidIsFormed(s: RtState)
    ensures ValidateState(s).None? <==> Formed(s) && SafeCounters(s)
  {
    hide ValidResult;
  }

  /** The balance of the counters, given how many dispatches the disk refused to record. */
  predicate Balanced(c: Config, s: RtState, lost: nat) {
    && 0 <= s.iteration && 0 <= s.completedCount && 0 <= s.failureCount == s.blockedCount
    && s.completedCount + s.failureCount <= s.iteration + lost
    && 0 <= s.retryCount <= RetryRoom(c, s.iteration)
  }

  function RetryRoom(c: Config, iterations: int): int {
    iterations * (c.maxAttempts - 1)
  }

  lemma RetryRoomGrows(c: Config, iterations: int)
    requires ValidConfig(c)
    ensures RetryRoom(c, iterations + 1) == RetryRoom(c, iterations) + c.maxAttempts - 1
    ensures iterations >= 0 ==> 0 <= RetryRoom(c, iterations) <= 2 * iterations
  {
    assert (iterations + 1) * (c.maxAttempts - 1) == iterations * (c.maxAttempts - 1) + (c.maxAttempts - 1);
    assert c.maxAttempts - 1 == 0 || c.maxAttempts - 1 == 1 || c.maxAttempts - 1 == 2;
  }

  /** A state that loads as restored and whose counters balance. */
  predicate Good(c: Config, s: RtState, lost: nat, steps: nat) {
    Formed(s) && s.stateRecovery != "CORRUPT" && Balanced(c, s, lost) && s.iteration <= steps && lost <= steps
  }

  lemma GoodLoads(c: Config, s: RtState, lost: nat, steps: nat, now: int)
    requires ValidConfig(c) && Good(c, s, lost, steps) && steps <= RUN_LIMIT
    ensures ValidateState(s).None?
    ensures LoadedState(Stored(s), now) == s.(stateRecovery := "RESTORED", lastHeartbeatAt := now)
  {
    hide ValidateState, ValidResult, RetryRoom;
    RetryRoomGrows(c, s.iteration);
    ValidIsFormed(s);
  }

  predicate CountersLeq(a: RtState, b: RtState) {
    && a.iteration <= b.iteration && a.completedCount <= b.completedCount && a.failureCount <= b.failureCount
    && a.retryCount <= b.retryCount && a.blockedCount <= b.blockedCount
  }

  // ----- The invariant -----

  /** In the middle of a cycle its own outcome and its remaining retries are still to come. */
  predicate MidCycle(c: Config, s: RtState, n: nat, lost: nat) {
    && 1 <= n <= c.maxAttempts
    && s.completedCount + s.failureCount <= s.iteration - 1 + lost
    && s.retryCount <= RetryRoom(c, s.iteration - 1) + n - 1
  }

  /** The calls that hold the shared handle: one whose body runs, or one that has yet to clear it. */
  predicate HandleHeld(m: Machine) {
    |m.bodies| + m.clears == if m.inFlight then 1 else 0
  }

  predicate Sound(c: Config, m: Machine, lost: nat, steps: nat) {
    && lost <= steps && !m.disk.Unreadable?
    && (m.disk.Stored? ==> Good(c, m.disk.s, lost, steps))
    && (m.loaded ==> Good(c, m.state, lost, steps))
    && (m.loaded && m.disk.Stored? ==> CountersLeq(m.disk.s, m.state))
    && (m.phase != Down ==> m.loaded && m.disk.Stored?)
    && HandleHeld(m)
    && (m.bodies != [] ==>
          && m.loaded && m.disk.Stored?
          && MidCycle(c, m.state, m.bodies[0], lost) && MidCycle(c, m.disk.s, m.bodies[0], lost))
  }

  predicate InClock(now: int) { 0 <= now <= CLOCK_LIMIT }

  predicate Named(message: string) { message == "" || !Blank(message) }

  predicate NamedWrite(w: Write) { w.Refused? ==> Named(w.message) }

  /** What is asked of a step: a sane clock, errors with a name, and a stop only after a start. */
  predicate Orderly(m: Machine, e: Event) {
    match e
    case Start(now, _, _) => InClock(now)
    case CallCycle(now, _) => InClock(now)
    case Try(_, a) => InClock(a.answeredAt) && InClock(a.failedAt) && NamedWrite(a.write)
      && (a.reply.Failure? ==> Named(a.reply.message))
    case ClearHandle => true
    case Stop(now, _) => InClock(now) && m.loaded
    case FinishStop(now, _) => InClock(now)
    case Crash(now) => InClock(now)
  }

  /** A dispatch whose success the disk did not take. */
  predicate LosesDispatch(a: Attempt) {
    Dispatched(a.reply) && a.write.Refused?
  }

  function Lost(m: Machine, e: Event): nat {
    if e.Try? && e.body < |m.bodies| && LosesDispatch(e.a) then 1 else 0
  }

  // ----- Texts -----

  lemma NamedTextOr(s: string, fallback: string)
    requires !Blank(fallback)
    ensures !Blank(TextOr(s, fallback))
  {
    hide IsSpace, Blank;
  }

  lemma SafeOfNamed(s: string)
    ensures SafeText(s).Some? <==> !Blank(s)
  {
    hide Blank;
  }

  lemma FixedTexts()
    ensures !Blank("ABSTAINED") && !Blank("UNSPECIFIED") && !Blank("AUTOPILOT_TICK_STATUS_UNSUPPORTED")
    ensures !Blank("BLOCKED") && !Blank("AUTOPILOT_TICK_FAILED") && !Blank("STATE_CORRUPT")
  {
    assert !IsSpace("ABSTAINED"[0]) && !IsSpace("UNSPECIFIED"[0]) && !IsSpace("AUTOPILOT_TICK_STATUS_UNSUPPORTED"[0]);
    assert !IsSpace("BLOCKED"[0]) && !IsSpace("AUTOPILOT_TICK_FAILED"[0]) && !IsSpace("STATE_CORRUPT"[0]);
    hide IsSpace;
  }

  lemma JudgedIsNamed(reply: Reply)
    requires reply.Failure? ==> Named(reply.message)
    ensures Judge(reply).Err? ==> Named(Judge(reply).error)
    ensures Judge(reply).Ok? ==> ValidResult(Some(Judge(reply).value))
  {
    hide Blank, TextOr, SafeText;
    if reply.Answer? {
      FixedTexts();
      NamedTextOr(reply.status, "ABSTAINED");
      NamedTextOr(reply.reason, "UNSPECIFIED");
      NamedTextOr(reply.reason, TextOr(reply.status, "ABSTAINED"));
      SafeOfNamed(TextOr(reply.status, "ABSTAINED"));
      SafeOfNamed(TextOr(reply.reason, "UNSPECIFIED"));
    }
  }

  lemma BlockedRecordIsValid(reason: string)
    ensures ValidResult(Some(TickRecord("BLOCKED", reason, None, None))) <==> !Blank(reason)
  {
    hide SafeText, Blank;
    FixedTexts();
    SafeOfNamed("BLOCKED");
    SafeOfNamed(reason);
  }

  lemma BlockedIsFormed(s: RtState, message: string, now: int)
    requires Formed(s) && InClock(now)
    ensures Formed(BlockedState(s, message, now)) <==> Named(message)
  {
    hide ValidResult, Blank;
    FixedTexts();
    BlockedRecordIsValid(if message == "" then "AUTOPILOT_TICK_FAILED" else message);
  }

  // ----- Steps -----

  lemma FreshIsGood(c: Config, now: int, lost: nat, steps: nat)
    requires InClock(now) && lost <= steps
    ensures Good(c, FreshState(now), lost, steps)
  {
    hide SafeText;
  }

  lemma GoodWeakens(c: Config, s: RtState, lost: nat, steps: nat, lost': nat, steps': nat)
    requires Good(c, s, lost, steps) && lost <= lost' <= steps' && steps <= steps'
    ensures Good(c, s, lost', steps')
  {
    hide Formed, RetryRoom;
  }

  lemma StartKeeps(c: Config, m: Machine, e: Event, lost: nat, steps: nat)
    requires ValidConfig(c) && Sound(c, m, lost, steps) && e.Start? && Orderly(m, e) && steps <= RUN_LIMIT
    ensures Sound(c, Step(c, m, e), lost, steps)
  {
    hide ValidateState, ValidResult, RetryRoom;
    if m.phase == Down {
      FreshIsGood(c, e.now, lost, steps);
      if m.disk.Stored? {
        GoodLoads(c, m.disk.s, lost, steps, e.now);
      }
    }
  }

  lemma StopKeeps(c: Config, m: Machine, e: Event, lost: nat, steps: nat)
    requires ValidConfig(c) && Sound(c, m, lost, steps) && (e.Stop? || e.FinishStop?) && Orderly(m, e)
    ensures Sound(c, Step(c, m, e), lost, steps)
  {
    hide ValidResult, RetryRoom;
  }

  lemma BeginKeeps(c: Config, s: RtState, now: int, lost: nat, steps: nat)
    requires ValidConfig(c) && Good(c, s, lost, steps) && InClock(now)
    ensures Good(c, BeganState(c, s, now), lost, steps + 1) && MidCycle(c, BeganState(c, s, now), 1, lost)
    ensures CountersLeq(s, BeganState(c, s, now))
  {
    hide ValidResult, RetryRoom;
    RetryRoomGrows(c, s.iteration);
  }

  lemma RetryKeeps(c: Config, s: RtState, n: nat, now: int, lost: nat, steps: nat)
    requires ValidConfig(c) && Good(c, s, lost, steps) && MidCycle(c, s, n, lost) && n < c.maxAttempts && InClock(now)
    ensures Good(c, RetriedState(s, now), lost, steps) && MidCycle(c, RetriedState(s, now), n + 1, lost)
    ensures CountersLeq(s, RetriedState(s, now))
  {
    hide ValidResult, RetryRoom;
    RetryRoomGrows(c, s.iteration - 1);
  }

  lemma BlockCounts(s: RtState, message: string, now: int)
    ensures var next := BlockedState(s, message, now);
      && next.iteration == s.iteration && next.completedCount == s.completedCount && next.retryCount == s.retryCount
      && next.failureCount == s.failureCount + 1 && next.blockedCount == s.blockedCount + 1
      && next.stateRecovery == s.stateRecovery
  {
  }

  lemma BlockKeeps(c: Config, s: RtState, n: nat, message: string, now: int, lost: nat, steps: nat)
    requires ValidConfig(c) && Good(c, s, lost, steps) && MidCycle(c, s, n, lost) && Named(message) && InClock(now)
    ensures Good(c, BlockedState(s, message, now), lost, steps) && CountersLeq(s, BlockedState(s, message, now))
  {
    hide Formed, Named, RetryRoom, BlockedState, InClock, ValidConfig;
    BlockedIsFormed(s, message, now);
    BlockCounts(s, message, now);
  }

  lemma SuccessKeeps(c: Config, s: RtState, n: nat, record: TickRecord, now: int, lost: nat, steps: nat)
    requires ValidConfig(c) && Good(c, s, lost, steps) && MidCycle(c, s, n, lost) && ValidResult(Some(record))
      && InClock(now)
    ensures var next := SucceededState(s, record, now);
      && CountersLeq(s, next) && Good(c, next, lost, steps)
      && (record.status == "EXECUTION_DISPATCHED" ==> MidCycle(c, next, n, lost + 1))
      && (record.status != "EXECUTION_DISPATCHED" ==> MidCycle(c, next, n, lost))
  {
    hide ValidResult, RetryRoom;
  }

  // ----- One attempt -----

  /**
   A body between attempts: memory and file are good, the file behind the memory, and the cycle still owes its outcome.
   */
  predicate PassGood(c: Config, p: Pass, lost: nat, steps: nat) {
    && p.disk.Stored? && Good(c, p.disk.s, lost, steps) && Good(c, p.state, lost, steps)
    && CountersLeq(p.disk.s, p.state)
    && (p.next.Some? ==> MidCycle(c, p.state, p.next.value, lost) && MidCycle(c, p.disk.s, p.next.value, lost))
  }

  lemma CountersChain(r: RtState, s: RtState, t: RtState)
    requires CountersLeq(r, s) && CountersLeq(s, t)
    ensures CountersLeq(r, t)
  {
  }

  lemma SavedKeeps(
    c: Config, before: RtState, disk: Disk, after: RtState, write: Write, next: Option<nat>, lost: nat, steps: nat)
    requires disk.Stored? && Good(c, disk.s, lost, steps) && CountersLeq(disk.s, before)
    requires Good(c, after, lost, steps) && CountersLeq(before, after)
    requires next.Some? ==> write.Written? && MidCycle(c, after, next.value, lost)
    ensures PassGood(c, Pass(after, Saved(disk, after, write), next), lost, steps)
  {
    hide Good, MidCycle;
  }

  lemma FailKeeps(
    c: Config, s: RtState, disk: Disk, n: nat, message: string, now: int, write: Write, lost: nat, steps: nat)
    requires ValidConfig(c) && PassGood(c, Pass(s, disk, Some(n)), lost, steps) && Named(message) && InClock(now)
    ensures PassGood(c, Failed(c, s, disk, n, message, now, write), lost, steps)
  {
    hide Good, MidCycle, RetriedState, BlockedState, Named, CountersLeq, InClock;
    if n < c.maxAttempts {
      RetryKeeps(c, s, n, now, lost, steps);
      SavedKeeps(c, s, disk, RetriedState(s, now), write, if write.Written? then Some(n + 1) else None, lost, steps);
    } else {
      BlockKeeps(c, s, n, message, now, lost, steps);
      SavedKeeps(c, s, disk, BlockedState(s, message, now), write, None, lost, steps);
    }
  }

  lemma PassWeakens(c: Config, p: Pass, lost: nat, steps: nat, lost': nat, steps': nat)
    requires PassGood(c, p, lost, steps) && lost <= lost' <= steps' && steps <= steps'
    ensures PassGood(c, p, lost', steps')
  {
    hide Formed, RetryRoom;
  }

  /** A usable answer that the disk takes ends the body. */
  lemma RecordedKeeps(c: Config, s: RtState, disk: Disk, n: nat, record: TickRecord, now: int, lost: nat, steps: nat)
    requires ValidConfig(c) && PassGood(c, Pass(s, disk, Some(n)), lost, steps)
    requires ValidResult(Some(record)) && InClock(now)
    ensures PassGood(c, Pass(SucceededState(s, record, now), Stored(SucceededState(s, record, now)), None), lost, steps)
  {
    hide Good, MidCycle, ValidResult, SucceededState, CountersLeq, InClock;
    SuccessKeeps(c, s, n, record, now, lost, steps);
    SavedKeeps(c, s, disk, SucceededState(s, record, now), Written, None, lost, steps);
  }

  /**
   A usable answer that the disk refuses leaves the outcome counted and the attempt still to be handled as an error.
   */
  lemma RefusedKeeps(c: Config, s: RtState, disk: Disk, n: nat, record: TickRecord, now: int, lost: nat, steps: nat)
    requires ValidConfig(c) && PassGood(c, Pass(s, disk, Some(n)), lost, steps) && lost < steps
    requires ValidResult(Some(record)) && InClock(now)
    ensures PassGood(c, Pass(SucceededState(s, record, now), disk, Some(n)),
                     lost + (if record.status == "EXECUTION_DISPATCHED" then 1 else 0), steps)
  {
    hide Formed, ValidResult, SucceededState, RetryRoom;
    SuccessKeeps(c, s, n, record, now, lost, steps);
  }

  lemma TriedKeeps(c: Config, s: RtState, disk: Disk, n: nat, a: Attempt, lost: nat, steps: nat)
    requires ValidConfig(c) && PassGood(c, Pass(s, disk, Some(n)), lost, steps) && lost < steps
    requires InClock(a.answeredAt) && InClock(a.failedAt) && NamedWrite(a.write)
      && (a.reply.Failure? ==> Named(a.reply.message))
    ensures PassGood(c, Tried(c, s, disk, n, a), lost + (if LosesDispatch(a) then 1 else 0), steps)
  {
    hide PassGood, Judge, ValidResult, Named, SucceededState, Failed, InClock;
    JudgedIsNamed(a.reply);
    var lost' := lost + if LosesDispatch(a) then 1 else 0;
    match Judge(a.reply) {
      case Err(message) =>
        FailKeeps(c, s, disk, n, message, a.failedAt, a.failWrite, lost, steps);
        PassWeakens(c, Tried(c, s, disk, n, a), lost, steps, lost', steps);
      case Ok(record) =>
        if a.write.Written? {
          RecordedKeeps(c, s, disk, n, record, a.answeredAt, lost, steps);
        } else {
          RefusedKeeps(c, s, disk, n, record, a.answeredAt, lost, steps);
          FailKeeps(c, SucceededState(s, record, a.answeredAt), disk, n, a.write.message, a.failedAt, a.failWrite,
            lost', steps);
        }
    }
  }

  // ----- One event -----

  lemma AdvancedIsSound(c: Config, m: Machine, body: nat, p: Pass, lost: nat, steps: nat)
    requires m.loaded && m.inFlight && |m.bodies| == 1 && m.clears == 0 && body == 0
    requires PassGood(c, p, lost, steps) && lost <= steps
    ensures Sound(c, Advanced(m, body, p), lost, steps)
  {
    hide Good, MidCycle, CountersLeq;
  }

  lemma CallKeeps(c: Config, m: Machine, e: Event, lost: nat, steps: nat)
    requires ValidConfig(c) && Sound(c, m, lost, steps) && e.CallCycle? && Orderly(m, e)
    ensures Sound(c, Step(c, m, e), lost, steps + 1)
  {
    hide Good, MidCycle, CountersLeq, InClock, BeganState;
    if m.inFlight || m.phase != Ready {
      SoundWeakens(c, m, lost, steps);
    } else {
      BeginKeeps(c, m.state, e.now, lost, steps);
      GoodWeakens(c, m.disk.s, lost, steps, lost, steps + 1);
      var p := Begun(c, m.state, m.disk, e.now, e.write);
      SavedKeeps(c, m.state, m.disk, BeganState(c, m.state, e.now), e.write, p.next, lost, steps + 1);
      AdvancedIsSound(c, m.(inFlight := true, bodies := m.bodies + [1]), 0, p, lost, steps + 1);
    }
  }

  lemma TryKeeps(c: Config, m: Machine, e: Event, lost: nat, steps: nat)
    requires ValidConfig(c) && Sound(c, m, lost, steps) && e.Try? && Orderly(m, e)
    ensures Sound(c, Step(c, m, e), lost + Lost(m, e), steps + 1)
  {
    hide Good, MidCycle, CountersLeq, InClock, Tried, LosesDispatch, NamedWrite, Named;
    SoundWeakens(c, m, lost, steps);
    if e.body < |m.bodies| {
      TriedKeeps(c, m.state, m.disk, m.bodies[0], e.a, lost, steps + 1);
      AdvancedIsSound(c, m, 0, Tried(c, m.state, m.disk, m.bodies[0], e.a), lost + Lost(m, e), steps + 1);
    }
  }

  lemma SoundWeakens(c: Config, m: Machine, lost: nat, steps: nat)
    requires Sound(c, m, lost, steps)
    ensures Sound(c, m, lost, steps + 1)
  {
    hide Formed, RetryRoom;
  }

  lemma ClearKeeps(c: Config, m: Machine, e: Event, lost: nat, steps: nat)
    requires Sound(c, m, lost, steps) && (e.ClearHandle? || e.Crash?)
    ensures Sound(c, Step(c, m, e), lost, steps)
  {
    hide Good, MidCycle, CountersLeq;
  }

  lemma StepKeeps(c: Config, m: Machine, e: Event, lost: nat, steps: nat)
    requires ValidConfig(c) && Sound(c, m, lost, steps) && Orderly(m, e) && steps <= RUN_LIMIT
    ensures Sound(c, Step(c, m, e), lost + Lost(m, e), steps + 1)
  {
    hide Sound, Orderly, Step;
    match e {
      case Start(_, _, _) => StartKeeps(c, m, e, lost, steps); SoundWeakens(c, Step(c, m, e), lost, steps);
      case CallCycle(_, _) => CallKeeps(c, m, e, lost, steps);
      case Try(_, _) => TryKeeps(c, m, e, lost, steps);
      case Stop(_, _) => StopKeeps(c, m, e, lost, steps); SoundWeakens(c, Step(c, m, e), lost, steps);
      case FinishStop(_, _) => StopKeeps(c, m, e, lost, steps); SoundWeakens(c, Step(c, m, e), lost, steps);
      case ClearHandle => ClearKeeps(c, m, e, lost, steps); SoundWeakens(c, Step(c, m, e), lost, steps);
      case Crash(_) => ClearKeeps(c, m, e, lost, steps); SoundWeakens(c, Step(c, m, e), lost, steps);
    }
  }

  // ----- Whole runs -----

  /** Every step of a run is orderly. */
  predicate OrderlyRun(c: Config, m: Machine, events: seq<Event>) {
    events == [] ||
    (OrderlyRun(c, m, events[..|events| - 1]) && Orderly(Run(c, m, events[..|events| - 1]), events[|events| - 1]))
  }

  function LostIn(c: Config, m: Machine, events: seq<Event>): nat {
    if events == [] then 0
    else LostIn(c, m, events[..|events| - 1]) + Lost(Run(c, m, events[..|events| - 1]), events[|events| - 1])
  }

  lemma NewProcessIsSound(c: Config, now: int)
    ensures Sound(c, NewProcess(Missing, now), 0, 0)
  {
  }

  lemma {:induction false} RunKeeps(c: Config, now: int, events: seq<Event>)
    requires ValidConfig(c) && OrderlyRun(c, NewProcess(Missing, now), events) && |events| <= RUN_LIMIT
    ensures Sound(c, Run(c, NewProcess(Missing, now), events), LostIn(c, NewProcess(Missing, now), events), |events|)
    decreases |events|
  {
    hide Sound, Step, Orderly, Lost, NewProcess;
    var m := NewProcess(Missing, now);
    if |events| == 0 {
      NewProcessIsSound(c, now);
    } else {
      var n := |events| - 1;
      RunKeeps(c, now, events[..n]);
      StepKeeps(c, Run(c, m, events[..n]), events[n], LostIn(c, m, events[..n]), n);
    }
  }

  /**
   Wherever a run is cut off, what it left on disk loads as restored, with every counter as it was written; and the
   counters balance. Only dispatches that the disk refused can make outcomes outnumber iterations.
   */
  lemma EveryCrashIsRestored(c: Config, now: int, events: seq<Event>, later: int)
    requires ValidConfig(c) && OrderlyRun(c, NewProcess(Missing, now), events) && |events| <= RUN_LIMIT
    ensures var disk := Run(c, NewProcess(Missing, now), events).disk;
      && !disk.Unreadable?
      && (disk.Stored? ==>
            && ValidateState(disk.s).None?
            && LoadedState(disk, later) == disk.s.(stateRecovery := "RESTORED", lastHeartbeatAt := later)
            && disk.s.failureCount == disk.s.blockedCount
            && disk.s.completedCount + disk.s.failureCount <=
                 disk.s.iteration + LostIn(c, NewProcess(Missing, now), events)
            && disk.s.retryCount <= disk.s.iteration * (c.maxAttempts - 1))
  {
    hide Sound, ValidateState, LoadedState, Run, LostIn, OrderlyRun;
    var m := NewProcess(Missing, now);
    RunKeeps(c, now, events);
    SoundDiskLoads(c, Run(c, m, events), LostIn(c, m, events), |events|, later);
  }

  lemma SoundDiskLoads(c: Config, m: Machine, lost: nat, steps: nat, later: int)
    requires ValidConfig(c) && Sound(c, m, lost, steps) && steps <= RUN_LIMIT
    ensures !m.disk.Unreadable?
    ensures m.disk.Stored? ==>
      var s := m.disk.s;
      && ValidateState(s).None?
      && LoadedState(m.disk, later) == s.(stateRecovery := "RESTORED", lastHeartbeatAt := later)
      && s.failureCount == s.blockedCount
      && s.completedCount + s.failureCount <= s.iteration + lost
      && s.retryCount <= s.iteration * (c.maxAttempts - 1)
  {
    hide Formed, ValidateState, LoadedState, MidCycle;
    if m.disk.Stored? {
      GoodLoads(c, m.disk.s, lost, steps, later);
    }
  }

  lemma HandleStaysHeld(c: Config, m: Machine, e: Event)
    requires HandleHeld(m)
    ensures HandleHeld(Step(c, m, e))
  {
    hide Tried, LoadedState, FreshState, BeganState;
  }

  lemma {:induction false} RunHoldsHandle(c: Config, disk: Disk, now: int, events: seq<Event>)
    ensures HandleHeld(Run(c, NewProcess(disk, now), events))
    decreases |events|
  {
    hide HandleHeld, Step;
    if events == [] {
      NewHandleIsClear(disk, now);
    } else {
      var before := events[..|events| - 1];
      RunHoldsHandle(c, disk, now, before);
      HandleStaysHeld(c, Run(c, NewProcess(disk, now), before), events[|events| - 1]);
    }
  }

  lemma NewHandleIsClear(disk: Disk, now: int)
    ensures HandleHeld(NewProcess(disk, now))
  {
  }

  /**
   At most one cycle body runs, whatever the file was and whatever happens: calls, attempts, clearings, stops and starts
   while a body runs, failing writes and crashes in any order. The handle is set exactly while a body runs or the call
   that owned it has yet to clear it, and a call that finds it set changes nothing.
   */
  lemma {:induction false} OneCycleAtATime(c: Config, disk: Disk, now: int, events: seq<Event>, at: int, write: Write)
    ensures var m := Run(c, NewProcess(disk, now), events);
      && |m.bodies| <= 1 && m.clears <= 1
      && (m.inFlight <==> |m.bodies| == 1 || m.clears == 1) && !(|m.bodies| == 1 && m.clears == 1)
      && (m.inFlight ==> Step(c, m, CallCycle(at, write)) == m)
  {
    hide Run;
    RunHoldsHandle(c, disk, now, events);
  }

  /** Nothing an orderly step writes has a lower counter than what it replaces. */
  lemma StepForgetsNothing(c: Config, m: Machine, e: Event, lost: nat, steps: nat)
    requires ValidConfig(c) && Sound(c, m, lost, steps) && Orderly(m, e) && steps <= RUN_LIMIT && m.disk.Stored?
    ensures Step(c, m, e).disk.Stored? && CountersLeq(m.disk.s, Step(c, m, e).disk.s)
  {
    hide Good, ValidateState, ValidResult, MidCycle, Tried;
    if e.Start? {
      GoodLoads(c, m.disk.s, lost, steps, e.now);
    } else if e.Try? && e.body < |m.bodies| {
      TryForgetsNothing(c, m.state, m.disk, m.bodies[e.body], e.a);
    }
  }

  lemma FailForgetsNothing(c: Config, s: RtState, disk: Disk, n: nat, message: string, now: int, write: Write)
    requires disk.Stored? && CountersLeq(disk.s, s)
    ensures Failed(c, s, disk, n, message, now, write).disk.Stored?
    ensures CountersLeq(disk.s, Failed(c, s, disk, n, message, now, write).disk.s)
  {
  }

  lemma TryForgetsNothing(c: Config, s: RtState, disk: Disk, n: nat, a: Attempt)
    requires disk.Stored? && CountersLeq(disk.s, s)
    ensures Tried(c, s, disk, n, a).disk.Stored? && CountersLeq(disk.s, Tried(c, s, disk, n, a).disk.s)
  {
    hide Judge, Failed;
    match Judge(a.reply) {
      case Err(message) => FailForgetsNothing(c, s, disk, n, message, a.failedAt, a.failWrite);
      case Ok(record) =>
        var succeeded := SucceededState(s, record, a.answeredAt);
        assert CountersLeq(disk.s, succeeded);
        if a.write.Refused? {
          FailForgetsNothing(c, succeeded, disk, n, a.write.message, a.failedAt, a.failWrite);
        }
    }
  }

  /** Over any run, crashes included, the counters on disk never decrease. */
  lemma {:induction false} DiskForgetsNothing(c: Config, now: int, events: seq<Event>, k: nat)
    requires ValidConfig(c) && OrderlyRun(c, NewProcess(Missing, now), events) && |events| <= RUN_LIMIT && k <= |events|
    ensures var m := NewProcess(Missing, now);
      var before, after := Run(c, m, events[..k]).disk, Run(c, m, events).disk;
      before.Stored? ==> after.Stored? && CountersLeq(before.s, after.s)
    decreases |events|
  {
    var m := NewProcess(Missing, now);
    var n := |events| - 1;
    hide Step, Orderly, CountersLeq;
    if k == |events| {
      assert events[..k] == events;
      SameCounters(c, m, events);
    } else {
      assert events[..n][..k] == events[..k];
      DiskForgetsNothing(c, now, events[..n], k);
      RunKeeps(c, now, events[..n]);
      var last := Run(c, m, events[..n]);
      hide Sound;
      if last.disk.Stored? {
        StepForgetsNothing(c, last, events[n], LostIn(c, m, events[..n]), n);
        if Run(c, m, events[..k]).disk.Stored? {
          CountersChain(Run(c, m, events[..k]).disk.s, last.disk.s, Run(c, m, events).disk.s);
        }
      }
    }
  }

  lemma SameCounters(c: Config, m: Machine, events: seq<Event>)
    ensures Run(c, m, events).disk.Stored? ==> CountersLeq(Run(c, m, events).disk.s, Run(c, m, events).disk.s)
  {
    hide Run;
  }

  // ----- Cycles are runs -----

  function Tries(inputs: seq<Attempt>): seq<Event> {
    seq(|inputs|, k requires 0 <= k < |inputs| => Try(0, inputs[k]))
  }

  lemma {:induction false} RunFrom(c: Config, m: Machine, e: Event, events: seq<Event>)
    ensures Run(c, m, [e] + events) == Run(c, Step(c, m, e), events)
    decreases |events|
  {
    hide Step;
    var all := [e] + events;
    if events == [] {
      assert all == [e] && all[..0] == [];
      assert Run(c, m, [e]) == Step(c, Run(c, m, all[..0]), e);
    } else {
      var n := |events| - 1;
      assert all[..|all| - 1] == [e] + events[..n];
      RunFrom(c, m, e, events[..n]);
    }
  }

  /** The machine with one body at the pass, or with the settled body's handle still to clear. */
  function At(m: Machine, p: Pass): Machine {
    Advanced(m.(inFlight := true, bodies := [1], clears := 0), 0, p)
  }

  lemma {:induction false} RunOfTries(c: Config, m: Machine, p: Pass, inputs: seq<Attempt>)
    ensures Run(c, At(m, p), Tries(inputs)) == At(m, Attempts(c, p, inputs))
    decreases |inputs|
  {
    hide Tried;
    if inputs != [] {
      assert Tries(inputs) == [Try(0, inputs[0])] + Tries(inputs[1..]);
      RunFrom(c, At(m, p), Try(0, inputs[0]), Tries(inputs[1..]));
      if p.next.Some? {
        var q := Tried(c, p.state, p.disk, p.next.value, inputs[0]);
        assert Step(c, At(m, p), Try(0, inputs[0])) == At(m, q);
        RunOfTries(c, m, q, inputs[1..]);
      } else {
        assert At(m, p).bodies == [];
        assert Step(c, At(m, p), Try(0, inputs[0])) == At(m, p);
        RunOfTries(c, m, p, inputs[1..]);
      }
    }
  }

  lemma {:induction false} EnoughAttemptsSettle(c: Config, p: Pass, inputs: seq<Attempt>)
    requires p.next.Some? ==> p.next.value <= c.maxAttempts && |inputs| >= c.maxAttempts - p.next.value + 1
    ensures Attempts(c, p, inputs).next.None?
    decreases |inputs|
  {
    hide Judge;
    if p.next.Some? {
      EnoughAttemptsSettle(c, Tried(c, p.state, p.disk, p.next.value, inputs[0]), inputs[1..]);
    }
  }

  /**
   The cycle that the object runs is a run of the machine, with calls in between joining, so the laws of runs cover it.
   */
  lemma CycleIsARun(c: Config, m: Machine, now: int, write: Write, inputs: seq<Attempt>)
    requires ValidConfig(c) && |inputs| == c.maxAttempts
    requires m.phase == Ready && !m.inFlight && m.bodies == [] && m.clears == 0
    ensures var p := WholeCycle(c, m.state, m.disk, now, write, inputs);
      Run(c, m, [CallCycle(now, write)] + Tries(inputs) + [ClearHandle]) == m.(state := p.state, disk := p.disk)
  {
    hide Attempts, BeganState;
    var start := Begun(c, m.state, m.disk, now, write);
    assert m.bodies + [1] == [1];
    assert Step(c, m, CallCycle(now, write)) == At(m, start);
    RunFrom(c, m, CallCycle(now, write), Tries(inputs));
    RunOfTries(c, m, start, inputs);
    EnoughAttemptsSettle(c, start, inputs);
    var events := [CallCycle(now, write)] + Tries(inputs);
    assert (events + [ClearHandle])[..|events|] == events;
  }

  // ----- Where the plain laws fail, and exactly when -----

  function Outcomes(s: RtState): int {
    s.completedCount + s.failureCount
  }

  /** The same clock readings and write fates, whatever the replies. */
  ghost predicate SameFates(inputs: seq<Attempt>, others: seq<Attempt>) {
    |inputs| == |others| && forall k :: 0 <= k < |inputs| ==> others[k] == inputs[k].(reply := others[k].reply)
  }

  /**
   The write of a success may fail at an attempt the loop can reach, with the loop going on afterwards: the retry that
   follows is written, or the attempt is the last.
   */
  predicate Exposed(c: Config, inputs: seq<Attempt>, n: nat) {
    inputs != [] &&
    var continues := n >= c.maxAttempts || inputs[0].failWrite.Written?;
    && continues
    && (inputs[0].write.Refused? || (n < c.maxAttempts && Exposed(c, inputs[1..], n + 1)))
  }

  lemma {:induction false} UnexposedCountsOnce(c: Config, p: Pass, inputs: seq<Attempt>, n: nat)
    requires p.next == Some(n) && n <= c.maxAttempts && |inputs| == c.maxAttempts - n + 1 && !Exposed(c, inputs, n)
    ensures Outcomes(Attempts(c, p, inputs).state) <= Outcomes(p.state) + 1
    decreases |inputs|
  {
    hide Judge;
    var next := Tried(c, p.state, p.disk, n, inputs[0]);
    if next.next.Some? {
      assert inputs[0].failWrite.Written? && n < c.maxAttempts;
      UnexposedCountsOnce(c, next, inputs[1..], n + 1);
    }
  }

  lemma FailureGrows(c: Config, s: RtState, disk: Disk, n: nat, message: string, now: int, write: Write)
    ensures Outcomes(Failed(c, s, disk, n, message, now, write).state) >= Outcomes(s)
  {
  }

  lemma OneAttemptGrows(c: Config, s: RtState, disk: Disk, n: nat, a: Attempt)
    ensures Outcomes(Tried(c, s, disk, n, a).state) >= Outcomes(s)
  {
    hide Judge, Failed;
    match Judge(a.reply) {
      case Err(message) => FailureGrows(c, s, disk, n, message, a.failedAt, a.failWrite);
      case Ok(record) =>
        var succeeded := SucceededState(s, record, a.answeredAt);
        assert Outcomes(succeeded) >= Outcomes(s);
        if a.write.Refused? {
          FailureGrows(c, succeeded, disk, n, a.write.message, a.failedAt, a.failWrite);
        }
    }
  }

  lemma {:induction false} OutcomesGrow(c: Config, p: Pass, inputs: seq<Attempt>)
    ensures Outcomes(Attempts(c, p, inputs).state) >= Outcomes(p.state)
    decreases |inputs|
  {
    hide Tried, Outcomes;
    if inputs != [] && p.next.Some? {
      OneAttemptGrows(c, p.state, p.disk, p.next.value, inputs[0]);
      OutcomesGrow(c, Tried(c, p.state, p.disk, p.next.value, inputs[0]), inputs[1..]);
    }
  }

  function Dispatch(): Reply {
    Answer("EXECUTION_DISPATCHED", "ok", None, None)
  }

  lemma DispatchIsJudged()
    ensures Judge(Dispatch()) == Ok(TickRecord("EXECUTION_DISPATCHED", "ok", None, None))
  {
    hide IsSpace;
    TrimmedAlready("EXECUTION_DISPATCHED");
    TrimmedAlready("ok");
  }

  lemma TrimmedAlready(s: string)
    requires s == "EXECUTION_DISPATCHED" || s == "ok"
    ensures Trim(s) == s
  {
    assert s != "" && !IsSpace(s[0]) && !IsSpace(s[|s| - 1]);
    hide IsSpace;
  }

  /** Attempts whose replies all dispatch. */
  function Dispatching(inputs: seq<Attempt>): seq<Attempt> {
    seq(|inputs|, k requires 0 <= k < |inputs| => inputs[k].(reply := Dispatch()))
  }

  lemma DispatchCounts(c: Config, s: RtState, disk: Disk, n: nat, a: Attempt)
    requires a.reply == Dispatch()
    ensures var p := Tried(c, s, disk, n, a);
      && Outcomes(p.state) >= Outcomes(s) + 1
      && (a.write.Refused? && n >= c.maxAttempts ==> Outcomes(p.state) == Outcomes(s) + 2)
      && (a.write.Refused? && n < c.maxAttempts && a.failWrite.Written? ==> p.next == Some(n + 1))
  {
    hide Judge, Dispatch;
    DispatchIsJudged();
  }

  lemma ErrorCountsNothing(c: Config, s: RtState, disk: Disk, n: nat, a: Attempt)
    requires a.reply == Failure("tick") && n < c.maxAttempts && a.failWrite.Written?
    ensures Tried(c, s, disk, n, a).next == Some(n + 1) && Outcomes(Tried(c, s, disk, n, a).state) == Outcomes(s)
  {
  }

  /** Replies that make an exposed cycle count two outcomes: errors up to the lost dispatch, dispatches from there. */
  lemma {:induction false} ExposedCountsTwice(
    c: Config, p: Pass, inputs: seq<Attempt>, n: nat) returns (others: seq<Attempt>)
    requires p.next == Some(n) && n <= c.maxAttempts && |inputs| == c.maxAttempts - n + 1 && Exposed(c, inputs, n)
    ensures SameFates(inputs, others) && Outcomes(Attempts(c, p, others).state) >= Outcomes(p.state) + 2
    decreases |inputs|
  {
    hide Tried, Dispatch, Outcomes;
    if inputs[0].write.Refused? {
      others := Dispatching(inputs);
      DispatchCounts(c, p.state, p.disk, n, others[0]);
      var next := Tried(c, p.state, p.disk, n, others[0]);
      var rest := others[1..];
      if n < c.maxAttempts {
        assert rest[0].reply == Dispatch();
        DispatchCounts(c, next.state, next.disk, n + 1, rest[0]);
        OutcomesGrow(c, Tried(c, next.state, next.disk, n + 1, rest[0]), rest[1..]);
      } else {
        OutcomesGrow(c, next, rest);
      }
    } else {
      var first := inputs[0].(reply := Failure("tick"));
      ErrorCountsNothing(c, p.state, p.disk, n, first);
      var rest := ExposedCountsTwice(c, Tried(c, p.state, p.disk, n, first), inputs[1..], n + 1);
      others := [first] + rest;
      assert others[1..] == rest;
      assert forall k :: 1 <= k < |inputs| ==> inputs[k] == inputs[1..][k - 1] && others[k] == rest[k - 1];
    }
  }

  /**
   One outcome per cycle is not a law of the code: a success whose write fails is counted and then tried again. A cycle
   counts at most one outcome for every sequence of replies exactly when its writes are not exposed to that.
   */
  lemma OneOutcomeIffUnexposed(c: Config, s: RtState, disk: Disk, now: int, inputs: seq<Attempt>)
    requires ValidConfig(c) && |inputs| == c.maxAttempts
    ensures (forall others :: SameFates(inputs, others) ==>
        Outcomes(WholeCycle(c, s, disk, now, Written, others).state) <= Outcomes(s) + 1) <==> !Exposed(c, inputs, 1)
  {
    var begun := Begun(c, s, disk, now, Written);
    assert Outcomes(begun.state) == Outcomes(s) && begun.next == Some(1);
    hide Outcomes, Attempts;
    if Exposed(c, inputs, 1) {
      var others := ExposedCountsTwice(c, begun, inputs, 1);
      assert Outcomes(WholeCycle(c, s, disk, now, Written, others).state) >= Outcomes(s) + 2;
    } else {
      forall others | SameFates(inputs, others)
        ensures Outcomes(WholeCycle(c, s, disk, now, Written, others).state) <= Outcomes(s) + 1
      {
        SameExposure(c, inputs, others, 1);
        UnexposedCountsOnce(c, begun, others, 1);
      }
    }
  }

  lemma {:induction false} SameExposure(c: Config, inputs: seq<Attempt>, others: seq<Attempt>, n: nat)
    requires SameFates(inputs, others)
    ensures Exposed(c, inputs, n) == Exposed(c, others, n)
    decreases |inputs|
  {
    if inputs != [] {
      assert forall k :: 0 <= k < |inputs| - 1 ==> inputs[1..][k] == inputs[k + 1] && others[1..][k] == others[k + 1];
      SameExposure(c, inputs[1..], others[1..], n + 1);
    }
  }

  /**
   A cycle that ends blocked leaves a state that loads as restored exactly when its error message is not mere space.
   */
  lemma BlockedRestoresIffNamed(c: Config, s: RtState, message: string, now: int, later: int, lost: nat, steps: nat)
    requires ValidConfig(c) && Good(c, s, lost, steps) && steps < RUN_LIMIT && InClock(now)
    ensures LoadedState(Stored(BlockedState(s, message, now)), later).stateRecovery == "RESTORED" <==> Named(message)
  {
    hide Formed, ValidateState, Named, RetryRoom, InClock;
    BlockedIsFormed(s, message, now);
    BlockCounts(s, message, now);
    ValidIsFormed(BlockedState(s, message, now));
    RetryRoomGrows(c, s.iteration);
  }

  /**
   A stop before the first start overwrites the file with a fresh state: it keeps the counters only if all were zero.
   */
  lemma StopBeforeStartForgets(c: Config, s: RtState, now: int, later: int)
    ensures var after := Step(c, NewProcess(Stored(s), now), Stop(later, Written)).disk;
      after.Stored? && after.s.iteration == 0 && after.s.completedCount == 0
    ensures CountersLeq(s, Step(c, NewProcess(Stored(s), now), Stop(later, Written)).disk.s) <==>
      s.iteration <= 0 && s.completedCount <= 0 && s.failureCount <= 0 && s.retryCount <= 0 && s.blockedCount <= 0
  {
  }

  /** A corrupt file blocks one start only: the state written in its place loads as restored at the next. */
  lemma CorruptFileBlocksOneStart(c: Config, disk: Disk, now: int, renamed: bool, later: int)
    requires disk.Unreadable? || (disk.Stored? && ValidateState(disk.s).Some?)
    requires InClock(now) && InClock(later)
    ensures var first := Step(c, NewProcess(disk, now), Start(now, renamed, Written));
      var second := Step(c, first, Start(later, renamed, Written));
      && first.phase == Down && first.state.stateRecovery == "CORRUPT" && first.state.iteration == 0
      && second.phase == Ready && second.state.stateRecovery == "RESTORED"
  {
    hide ValidateState, SafeText, Blank;
    var first := Step(c, NewProcess(disk, now), Start(now, renamed, Written));
    assert first.disk == Stored(first.state);
    CorruptStateIsFormed(now);
    ValidIsFormed(first.state);
  }

  lemma CorruptStateIsFormed(now: int)
    requires InClock(now)
    ensures Formed(LoadedState(Unreadable, now))
  {
    hide ValidResult;
    FixedTexts();
    BlockedRecordIsValid("STATE_CORRUPT");
  }
}
