/**
 The persistent runtime of scripts/autopilot-runtime.js: a state kept in memory and written whole after each change. A
 write either replaces the file or fails and leaves it; a crash loses the memory and keeps the file. Replies of the
 tick, clock readings and the fate of each write are inputs.
 */
module AutopilotRuntime {
  import opened Numbers
  import opened Prelude
  import opened Text

  const SCHEMA_VERSION: int := 1
  const MAX_INTERVAL_MS: int := 86400000

  datatype Config = Config(intervalMs: nat, maxAttempts: nat)

  /** What the constructor's clamping leaves. */
  predicate ValidConfig(c: Config) {
    5000 <= c.intervalMs <= MAX_INTERVAL_MS && 1 <= c.maxAttempts <= 3
  }

  datatype TickRecord = TickRecord(status: string, reason: string, headSha: Option<string>, workflowRunId: Option<int>)

  datatype RtState = RtState(
    schemaVersion: int, status: string, iteration: int, queueDepth: Option<int>,
    completedCount: int, failureCount: int, retryCount: int, blockedCount: int,
    currentTask: Option<string>, lastSuccessfulWorkAt: Option<int>, lastHeartbeatAt: int,
    lastCycleAt: Option<int>, nextCycleAt: Option<int>, lastResult: Option<TickRecord>, stateRecovery: string,
    liveAuthority: string, productionMutationAllowed: bool, aiAuthority: string)

  // ----- Texts of records -----

  /** Trimmed text, or nothing when it is blank. */
  function SafeText(s: string): Option<string> {
    if Trim(s) == "" then None else Some(Trim(s))
  }

  function TextOr(s: string, fallback: string): string {
    match SafeText(s)
    case None => fallback
    case Some(t) => t
  }

  // ----- States -----

  function FreshState(now: int): RtState {
    RtState(SCHEMA_VERSION, "STARTING", 0, None, 0, 0, 0, 0, None, None, now, None, None, None, "FRESH",
            "NONE", false, "ZERO_AUTHORITY")
  }

  predicate IsSafeCount(n: int) { 0 <= n <= MAX_SAFE }

  predicate IsSafeStamp(at: Option<int>) { at.Some? ==> IsSafeCount(at.value) }

  predicate ValidResult(result: Option<TickRecord>) {
    result.Some? ==>
      && SafeText(result.value.status).Some? && SafeText(result.value.reason).Some?
      && (result.value.headSha.Some? ==> |result.value.headSha.value| <= 128)
      && (result.value.workflowRunId.Some? ==> IsSafe(result.value.workflowRunId.value))
  }

  /** The reason a stored state is refused, in the order of the checks; None when it is accepted. */
  function ValidateState(s: RtState): Option<string> {
    if s.schemaVersion != SCHEMA_VERSION then Some("STATE_SCHEMA_UNSUPPORTED")
    else if s.liveAuthority != "NONE" || s.productionMutationAllowed || s.aiAuthority != "ZERO_AUTHORITY"
    then Some("STATE_SAFETY_INVARIANT_INVALID")
    else if s.status !in {"STARTING", "RUNNING", "IDLE", "RETRYING", "BLOCKED", "STOPPING", "STOPPED"}
    then Some("STATE_STATUS_INVALID")
    else if s.stateRecovery !in {"FRESH", "RESTORED", "CORRUPT"} then Some("STATE_RECOVERY_INVALID")
    else if !IsSafeCount(s.iteration) then Some("STATE_ITERATION_INVALID")
    else if !IsSafeCount(s.completedCount) then Some("STATE_COMPLETEDCOUNT_INVALID")
    else if !IsSafeCount(s.failureCount) then Some("STATE_FAILURECOUNT_INVALID")
    else if !IsSafeCount(s.retryCount) then Some("STATE_RETRYCOUNT_INVALID")
    else if !IsSafeCount(s.blockedCount) then Some("STATE_BLOCKEDCOUNT_INVALID")
    else if !IsSafeCount(s.lastHeartbeatAt) then Some("STATE_LASTHEARTBEATAT_INVALID")
    else if !IsSafeStamp(s.lastSuccessfulWorkAt) then Some("STATE_LASTSUCCESSFULWORKAT_INVALID")
    else if !IsSafeStamp(s.lastCycleAt) then Some("STATE_LASTCYCLEAT_INVALID")
    else if !IsSafeStamp(s.nextCycleAt) then Some("STATE_NEXTCYCLEAT_INVALID")
    else if !IsSafeStamp(s.queueDepth) then Some("STATE_QUEUE_DEPTH_INVALID")
    else if s.currentTask.Some? && |s.currentTask.value| > 256 then Some("STATE_TASK_INVALID")
    else if !ValidResult(s.lastResult) then Some("STATE_RESULT_INVALID")
    else None
  }

  /** The file: absent, text that is no state at all, or a stored state. */
  datatype Disk = Missing | Unreadable | Stored(s: RtState)

  function WithSafety(s: RtState): RtState {
    s.(liveAuthority := "NONE", productionMutationAllowed := false, aiAuthority := "ZERO_AUTHORITY")
  }

  /** The state a start takes from the file: fresh, restored, or blocked as corrupt. */
  function LoadedState(disk: Disk, now: int): RtState {
    if disk.Missing? then FreshState(now)
    else if disk.Stored? && ValidateState(disk.s).None?
    then WithSafety(disk.s.(stateRecovery := "RESTORED", lastHeartbeatAt := now))
    else FreshState(now).(status := "BLOCKED", stateRecovery := "CORRUPT",
                          lastResult := Some(TickRecord("BLOCKED", "STATE_CORRUPT", None, None)))
  }

  function BeganState(c: Config, s: RtState, now: int): RtState {
    WithSafety(s.(status := "RETRYING", iteration := s.iteration + 1, lastHeartbeatAt := now, lastCycleAt := Some(now),
                  nextCycleAt := Some(now + c.intervalMs)))
  }

  // ----- Ticks -----

  /** What a tick gives: an answer (a field that is no text is empty), or a thrown error. */
  datatype Reply =
    | Answer(status: string, reason: string, headSha: Option<string>, workflowRunId: Option<int>)
    | Failure(message: string)

  function Slice128(s: string): string { if |s| <= 128 then s else s[..128] }

  /** The record a usable answer leaves, or the message of the error that the attempt ends with. */
  function Judge(reply: Reply): Result<TickRecord> {
    match reply
    case Failure(message) => Err(message)
    case Answer(_, _, headSha, workflowRunId) =>
      var status := TextOr(reply.status, "ABSTAINED");
      if status == "EXECUTION_NOT_DISPATCHED" then Err(TextOr(reply.reason, status))
      else if status !in {"EXECUTION_DISPATCHED", "DUPLICATE_EXECUTION_SUPPRESSED", "ABSTAINED", "WAITING_RATE_LIMIT"}
      then Err("AUTOPILOT_TICK_STATUS_UNSUPPORTED")
      else
        Ok(TickRecord(
             status, TextOr(reply.reason, "UNSPECIFIED"),
             if headSha.Some? then Some(Slice128(headSha.value)) else None,
             if workflowRunId.Some? && IsSafe(workflowRunId.value) then workflowRunId else None))
  }

  predicate Dispatched(reply: Reply) {
    Judge(reply).Ok? && Judge(reply).value.status == "EXECUTION_DISPATCHED"
  }

  function SucceededState(s: RtState, record: TickRecord, now: int): RtState {
    WithSafety(s.(
      status := if record.status == "EXECUTION_DISPATCHED" then "RUNNING" else "IDLE",
      completedCount := if record.status == "EXECUTION_DISPATCHED" then s.completedCount + 1 else s.completedCount,
      lastSuccessfulWorkAt := if record.status == "WAITING_RATE_LIMIT" then s.lastSuccessfulWorkAt else Some(now),
      lastHeartbeatAt := now, lastResult := Some(record)))
  }

  function RetriedState(s: RtState, now: int): RtState {
    WithSafety(s.(retryCount := s.retryCount + 1, lastHeartbeatAt := now))
  }

  function BlockedState(s: RtState, message: string, now: int): RtState {
    var reason := if message == "" then "AUTOPILOT_TICK_FAILED" else message;
    WithSafety(s.(
      status := "BLOCKED",
      failureCount := s.failureCount + 1,
      blockedCount := s.blockedCount + 1,
      lastHeartbeatAt := now,
      lastResult := Some(TickRecord("BLOCKED", reason, None, None))))
  }

  // ----- The machine -----

  datatype Write = Written | Refused(message: string)

  /** One pass through the attempt loop: the reply, and the write that follows it, or the writes after an error. */
  datatype Attempt = Attempt(reply: Reply, answeredAt: int, write: Write, failedAt: int, failWrite: Write)

  function Saved(disk: Disk, s: RtState, write: Write): Disk {
    if write.Written? then Stored(s) else disk
  }

  // ----- One cycle -----

  /** Where a cycle body stands: the state, the file, and the attempt to come; None once the body has settled. */
  datatype Pass = Pass(state: RtState, disk: Disk, next: Option<nat>)

  /** The error branch of attempt `n`. */
  function Failed(c: Config, s: RtState, disk: Disk, n: nat, message: string, now: int, write: Write): Pass {
    if n < c.maxAttempts then
      var retried := RetriedState(s, now);
      Pass(retried, Saved(disk, retried, write), if write.Written? then Some(n + 1) else None)
    else
      var blocked := BlockedState(s, message, now);
      Pass(blocked, Saved(disk, blocked, write), None)
  }

  function Tried(c: Config, s: RtState, disk: Disk, n: nat, a: Attempt): Pass {
    match Judge(a.reply)
    case Err(message) => Failed(c, s, disk, n, message, a.failedAt, a.failWrite)
    case Ok(record) =>
      var succeeded := SucceededState(s, record, a.answeredAt);
      match a.write
      case Written => Pass(succeeded, Stored(succeeded), None)
      case Refused(message) => Failed(c, succeeded, disk, n, message, a.failedAt, a.failWrite)
  }

  function Begun(c: Config, s: RtState, disk: Disk, now: int, write: Write): Pass {
    var began := BeganState(c, s, now);
    Pass(began, Saved(disk, began, write), if write.Written? then Some(1) else None)
  }

  /** The attempts of one body, until it settles. */
  function Attempts(c: Config, p: Pass, inputs: seq<Attempt>): Pass
    decreases |inputs|
  {
    if inputs == [] || p.next.None? then p
    else Attempts(c, Tried(c, p.state, p.disk, p.next.value, inputs[0]), inputs[1..])
  }

  /** A whole body: the opening write, then its attempts. */
  function WholeCycle(c: Config, s: RtState, disk: Disk, now: int, write: Write, inputs: seq<Attempt>): Pass {
    Attempts(c, Begun(c, s, disk, now, write), inputs)
  }

  // ----- The machine -----

  datatype Phase = Down | Ready | Stopping

  /**
   The process. `loaded` says that it has read the file. `bodies` are the cycle bodies that have begun and not settled,
   each with its next attempt; `clears` counts the calls whose body has settled and that have yet to clear the shared
   handle; `inFlight` says that the handle is set. Nothing here keeps bodies from running side by side.
   */
  datatype Machine = Machine(
    state: RtState, disk: Disk, phase: Phase, loaded: bool, inFlight: bool, bodies: seq<nat>, clears: nat)

  datatype Event =
    | Start(now: int, renamed: bool, write: Write)
    | CallCycle(now: int, write: Write)
    | Try(body: nat, a: Attempt)
    | ClearHandle
    | Stop(now: int, write: Write)
    | FinishStop(now: int, write: Write)
    | Crash(now: int)

  /** A body that goes on, or settles and leaves its call the handle to clear. */
  function Advanced(m: Machine, body: nat, p: Pass): Machine
    requires body < |m.bodies|
  {
    var moved := m.(state := p.state, disk := p.disk);
    if p.next.Some? then moved.(bodies := m.bodies[body := p.next.value])
    else moved.(bodies := m.bodies[..body] + m.bodies[body + 1..], clears := m.clears + 1)
  }

  function Step(c: Config, m: Machine, e: Event): Machine {
    match e
    case Start(now, renamed, write) =>
      if m.phase != Down then m
      else
        var s := LoadedState(m.disk, now);
        var before := if s.stateRecovery == "CORRUPT" && renamed then Missing else m.disk;
        m.(state := s, disk := Saved(before, s, write), loaded := true,
           phase := if write.Written? && s.stateRecovery != "CORRUPT" then Ready else Down)
    case CallCycle(now, write) =>
      if m.inFlight || m.phase != Ready then m
      else
        Advanced(m.(inFlight := true, bodies := m.bodies + [1]), |m.bodies|, Begun(c, m.state, m.disk, now, write))
    case Try(body, a) =>
      if body < |m.bodies| then Advanced(m, body, Tried(c, m.state, m.disk, m.bodies[body], a)) else m
    case ClearHandle => if m.clears > 0 then m.(inFlight := false, clears := m.clears - 1) else m
    case Stop(now, write) =>
      var s := WithSafety(m.state.(status := "STOPPING", lastHeartbeatAt := now));
      m.(state := s, disk := Saved(m.disk, s, write), phase := if write.Written? then Stopping else Down)
    case FinishStop(now, write) =>
      if m.phase != Stopping then m
      else
        var s := WithSafety(m.state.(status := "STOPPED", lastHeartbeatAt := now));
        m.(state := s, disk := Saved(m.disk, s, write), phase := Down)
    case Crash(now) => NewProcess(m.disk, now)
  }

  /** A new process before its first start. */
  function NewProcess(disk: Disk, now: int): Machine {
    Machine(FreshState(now), disk, Down, false, false, [], 0)
  }

  function Run(c: Config, m: Machine, events: seq<Event>): Machine {
    if events == [] then m else Step(c, Run(c, m, events[..|events| - 1]), events[|events| - 1])
  }

  // ----- The object -----

  class Runtime {
    const config: Config
    var state: RtState
    var disk: Disk
    var running: bool
    var inFlight: bool

    constructor (config: Config, disk: Disk, now: int)
      ensures this.config == config && this.disk == disk && state == FreshState(now) && !running && !inFlight
    {
      this.config := config;
      this.disk := disk;
      state := FreshState(now);
      running := false;
      inFlight := false;
    }

    /** Write the whole state; a refused write leaves the file. */
    method Persist(write: Write) returns (ok: bool)
      modifies this`disk
      ensures ok == write.Written? && disk == Saved(old(disk), state, write)
    {
      ok := write.Written?;
      if ok {
        disk := Stored(state);
      }
    }

    method Load(now: int, renamed: bool, write: Write) returns (ok: bool)
      modifies this`state, this`disk
      ensures ok == write.Written? && state == LoadedState(old(disk), now)
      ensures disk == Saved(if state.stateRecovery == "CORRUPT" && renamed then Missing else old(disk), state, write)
    {
      hide ValidateState;
      if disk.Missing? {
        state := FreshState(now);
      } else if disk.Stored? && ValidateState(disk.s).None? {
        state := WithSafety(disk.s.(stateRecovery := "RESTORED", lastHeartbeatAt := now));
      } else {
        if renamed {
          disk := Missing;
        }
        state := FreshState(now).(status := "BLOCKED", stateRecovery := "CORRUPT",
                                  lastResult := Some(TickRecord("BLOCKED", "STATE_CORRUPT", None, None)));
      }
      ok := Persist(write);
    }

    /** Read the file and begin to run with a first cycle, unless the file was corrupt or could not be written. */
    method Start(now: int, renamed: bool, write: Write, cycleAt: int, cycleWrite: Write, inputs: seq<Attempt>)
      requires ValidConfig(config) && |inputs| == config.maxAttempts && !inFlight
      modifies this`state, this`disk, this`running, this`inFlight
      ensures !inFlight
      ensures old(running) ==> state == old(state) && disk == old(disk) && running
      ensures !old(running) ==>
        var m :=
          Step(config, Machine(old(state), old(disk), Down, false, false, [], 0), Event.Start(now, renamed, write));
        && (running <==> m.phase == Ready)
        && Pass(state, disk, None) ==
             if running then WholeCycle(config, m.state, m.disk, cycleAt, cycleWrite, inputs)
             else Pass(m.state, m.disk, None)
    {
      hide LoadedState, WholeCycle;
      if running {
        return;
      }
      var ok := Load(now, renamed, write);
      if ok && state.stateRecovery != "CORRUPT" {
        running := true;
        Cycle(cycleAt, cycleWrite, inputs);
      }
    }

    /** The cycle body: at most `maxAttempts` ticks, a write after every change. */
    method RunCycle(now: int, write: Write, inputs: seq<Attempt>)
      requires ValidConfig(config) && |inputs| == config.maxAttempts
      modifies this`state, this`disk
      ensures Pass(state, disk, None) == WholeCycle(config, old(state), old(disk), now, write, inputs)
    {
      hide Judge, BeganState, SucceededState, RetriedState, BlockedState;
      state := BeganState(config, state, now);
      var ok := Persist(write);
      if !ok {
        return;
      }
      ghost var start := Pass(state, disk, Some(1));
      var n := 1;
      while n <= config.maxAttempts
        invariant 1 <= n <= config.maxAttempts
        invariant Attempts(config, start, inputs) == Attempts(config, Pass(state, disk, Some(n)), inputs[n - 1..])
        decreases config.maxAttempts - n
      {
        ghost var s, file := state, disk;
        var a := inputs[n - 1];
        assert inputs[n - 1..][0] == a && inputs[n - 1..][1..] == inputs[n..];
        var lastError := "";
        match Judge(a.reply) {
          case Err(message) => lastError := message;
          case Ok(record) =>
            state := SucceededState(state, record, a.answeredAt);
            ok := Persist(a.write);
            if ok {
              assert Tried(config, s, file, n, a) == Pass(state, disk, None);
              return;
            }
            lastError := a.write.message;
        }
        if n < config.maxAttempts {
          state := RetriedState(state, a.failedAt);
          ok := Persist(a.failWrite);
          assert Tried(config, s, file, n, a) == Pass(state, disk, if ok then Some(n + 1) else None);
          if !ok {
            return;
          }
          n := n + 1;
        } else {
          state := BlockedState(state, lastError, a.failedAt);
          ok := Persist(a.failWrite);
          assert Tried(config, s, file, n, a) == Pass(state, disk, None);
          return;
        }
      }
    }

    /**
     A call while a cycle is in flight joins it and changes nothing; otherwise it runs one cycle and clears the handle.
     */
    method Cycle(now: int, write: Write, inputs: seq<Attempt>)
      requires ValidConfig(config) && |inputs| == config.maxAttempts
      modifies this`state, this`disk, this`inFlight
      ensures inFlight == old(inFlight)
      ensures Pass(state, disk, None) ==
        if inFlight then Pass(old(state), old(disk), None)
        else WholeCycle(config, old(state), old(disk), now, write, inputs)
    {
      hide WholeCycle;
      if inFlight {
        return;
      }
      inFlight := true;
      RunCycle(now, write, inputs);
      inFlight := false;
    }

    /** Two writes, stopping and stopped; a refused first write throws before the second. */
    method Stop(now: int, write: Write, later: int, lastWrite: Write)
      modifies this`state, this`disk, this`running
      ensures !running
      ensures forall phase: Phase, loaded: bool, bodies: seq<nat>, clears: nat ::
        var m :=
          Step(config, Machine(old(state), old(disk), phase, loaded, inFlight, bodies, clears), Event.Stop(now, write));
        var last := Step(config, m, FinishStop(later, lastWrite));
        state == last.state && disk == last.disk
    {
      running := false;
      state := WithSafety(state.(status := "STOPPING", lastHeartbeatAt := now));
      var ok := Persist(write);
      if !ok {
        return;
      }
      state := WithSafety(state.(status := "STOPPED", lastHeartbeatAt := later));
      ok := Persist(lastWrite);
    }
  }
}
