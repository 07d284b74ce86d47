/**
 The process supervisor of the PAPER runtime (scripts/paper-runtime-supervisor.js).

 The child process, the restart timer and the clock are outside: their events arrive as a start, a stop, one exit per
 launched child and one firing per scheduled timer. Every step appends to a journal; the journal only records what
 happened and no step reads it.
 */
module Supervisor {
  import opened Numbers
  import opened Prelude

  const LEASE_CONFLICT_EXIT_CODE := 75
  const MINIMUM_LEASE_RETRY_MS := 30000
  const MAXIMUM_EXPONENT := 30

  /** The options; the two backoff bounds are any numbers, since construction does not look at them on their own. */
  datatype Config = Config(
    initialBackoffMs: Number,
    maxBackoffMs: Number,
    writerLeaseRetryMs: int,
    stableWindowMs: int,
    maxRestarts: int,
    maxRestartWindowMs: int)

  predicate LeaseRetryCovers(cfg: Config) {
    IsSafe(cfg.writerLeaseRetryMs) && cfg.writerLeaseRetryMs >= MINIMUM_LEASE_RETRY_MS
  }

  predicate BudgetBounded(cfg: Config) {
    IsSafe(cfg.maxRestarts) && cfg.maxRestarts >= 1
  }

  predicate WindowCoversBackoff(cfg: Config) {
    IsSafe(cfg.maxRestartWindowMs) && !LessThan(cfg.maxRestartWindowMs, cfg.initialBackoffMs)
  }

  /** What the constructor checks; it does not compare the two backoff bounds, nor ask that they are safe integers. */
  predicate Accepted(cfg: Config) {
    LeaseRetryCovers(cfg) && BudgetBounded(cfg) && WindowCoversBackoff(cfg)
  }

  const LEASE_RETRY_INVALID := "SUPERVISOR_WRITER_LEASE_RETRY_INVALID"
  const BUDGET_UNBOUNDED := "SUPERVISOR_RESTART_BUDGET_UNBOUNDED"
  const WINDOW_INVALID := "SUPERVISOR_RESTART_WINDOW_INVALID"

  /** The error that construction throws: that of the first check that fails. */
  function ConfigError(cfg: Config): (error: Option<string>)
    ensures error.None? <==> Accepted(cfg)
    ensures error == Some(LEASE_RETRY_INVALID) <==> !LeaseRetryCovers(cfg)
    ensures error == Some(BUDGET_UNBOUNDED) <==> LeaseRetryCovers(cfg) && !BudgetBounded(cfg)
    ensures error == Some(WINDOW_INVALID) ==> LeaseRetryCovers(cfg) && BudgetBounded(cfg)
  {
    if !IsSafe(cfg.writerLeaseRetryMs) || cfg.writerLeaseRetryMs < MINIMUM_LEASE_RETRY_MS then Some(LEASE_RETRY_INVALID)
    else if !IsSafe(cfg.maxRestarts) || cfg.maxRestarts < 1 then Some(BUDGET_UNBOUNDED)
    else if !IsSafe(cfg.maxRestartWindowMs) || LessThan(cfg.maxRestartWindowMs, cfg.initialBackoffMs)
      then Some(WINDOW_INVALID)
    else None
  }

  /** The backoff bounds are safe integers, positive and in order. */
  predicate BackoffOrdered(cfg: Config) {
    && IsSafeInteger(cfg.initialBackoffMs) && IsSafeInteger(cfg.maxBackoffMs)
    && 1 <= IntegerOf(cfg.initialBackoffMs) <= IntegerOf(cfg.maxBackoffMs)
  }

  /** The restart delay, or None where the source throws. */
  function BoundedBackoffMs(attempt: int, initialMs: Number, maxMs: Number): Option<int> {
    if !IsSafe(attempt) || attempt < 0 then None
    else if !IsSafeInteger(initialMs) || IntegerOf(initialMs) < 1 then None
    else if !IsSafeInteger(maxMs) || IntegerOf(maxMs) < IntegerOf(initialMs) then None
    else
      var delay := IntegerOf(initialMs) * Pow2(if attempt < MAXIMUM_EXPONENT then attempt else MAXIMUM_EXPONENT);
      Some(if delay < IntegerOf(maxMs) then delay else IntegerOf(maxMs))
  }

  /** What happened, in order. */
  datatype Note =
    | Started
    | ManualReset
    | Fired
    | Launched(launchedAt: int)
    | Exited(exitedAt: int, uptimeMs: int, code: Option<int>, stderrNamesConflict: bool)
    | Scheduled(scheduledAt: int, delayMs: int, unstable: bool, leaseConflict: bool)
    | GaveUp
    | Threw
    | Stopped
    | Cancelled

  datatype Event =
    | Start(now: int)
    | Stop
    | ChildExits(code: Option<int>, stderrNamesConflict: bool, now: int)
    | TimerFires(now: int)

  datatype State = State(
    child: bool,
    restartTimer: bool,
    stopping: bool,
    gaveUp: bool,
    restartAttempt: int,
    unstableStreak: nat,
    unstableWindowStart: Option<int>,
    startedAt: Option<int>,
    restartCount: nat,
    journal: seq<Note>)

  const INITIAL := State(false, false, false, false, 0, 0, None, None, 0, [])

  /** The environment delivers an exit only for a running child and a firing only for a pending timer. */
  predicate Enabled(s: State, e: Event) {
    match e
    case ChildExits(_, _, _) => s.child
    case TimerFires(_) => s.restartTimer
    case _ => true
  }

  function Noted(s: State, note: Note): State {
    s.(journal := s.journal + [note])
  }

  function Launch(s: State, now: int): State {
    if s.stopping then s else Noted(s.(child := true, startedAt := Some(now)), Launched(now))
  }

  function UptimeAt(startedAt: Option<int>, now: int): int {
    if startedAt.None? || now < startedAt.value then 0 else now - startedAt.value
  }

  /** An exit while not stopping: the budget is restored or consumed before anything is decided. */
  function ConsumeBudget(cfg: Config, s: State, now: int, uptimeMs: int): State {
    if uptimeMs >= cfg.stableWindowMs then s.(restartAttempt := 0, unstableStreak := 0, unstableWindowStart := None)
    else
      s.(unstableStreak := s.unstableStreak + 1,
      unstableWindowStart := if s.unstableWindowStart.None? then Some(now) else s.unstableWindowStart)
  }

  predicate Exhausted(cfg: Config, s: State, now: int) {
    || s.unstableStreak > cfg.maxRestarts
    || (s.unstableWindowStart.Some? && now - s.unstableWindowStart.value >= cfg.maxRestartWindowMs)
  }

  /** The second half of an exit: give up, or schedule the next launch. */
  function Settle(cfg: Config, s: State, now: int, unstable: bool, conflict: bool): State {
    if Exhausted(cfg, s, now) then Noted(s.(gaveUp := true), GaveUp)
    else
      var delay := if conflict then Some(cfg.writerLeaseRetryMs)
        else BoundedBackoffMs(s.restartAttempt, cfg.initialBackoffMs, cfg.maxBackoffMs);
      if delay.None? then Noted(s, Threw)
      else
        Noted(s.(restartTimer := true, restartCount := s.restartCount + 1,
          restartAttempt := if conflict then s.restartAttempt else s.restartAttempt + 1),
          Scheduled(now, delay.value, unstable, conflict))
  }

  function OnExit(cfg: Config, s: State, e: Event): State
    requires e.ChildExits?
  {
    var uptimeMs := UptimeAt(s.startedAt, e.now);
    var exited := Noted(s.(child := false), Exited(e.now, uptimeMs, e.code, e.stderrNamesConflict));
    if s.stopping then exited
    else
      Settle(cfg, ConsumeBudget(cfg, exited, e.now, uptimeMs), e.now, uptimeMs < cfg.stableWindowMs,
        e.code == Some(LEASE_CONFLICT_EXIT_CODE) || e.stderrNamesConflict)
  }

  function OnStart(s: State, now: int): State {
    if s.stopping || s.child || s.restartTimer then s
    else if s.gaveUp then
      var restored := s.(gaveUp := false, restartAttempt := 0, unstableStreak := 0, unstableWindowStart := None);
      Launch(Noted(Noted(restored, ManualReset), Started), now)
    else Launch(Noted(s, Started), now)
  }

  function OnStop(s: State): State {
    var stopped := Noted(s.(stopping := true, restartTimer := false), Stopped);
    if s.restartTimer then Noted(stopped, Cancelled) else stopped
  }

  function Step(cfg: Config, s: State, e: Event): State {
    match e
    case Start(now) => OnStart(s, now)
    case Stop => OnStop(s)
    case ChildExits(_, _, _) => OnExit(cfg, s, e)
    case TimerFires(now) => Launch(Noted(s.(restartTimer := false), Fired), now)
  }

  datatype Status = Stopping | Failed | Offline | Recovering | Running

  function StatusOf(s: State): Status {
    if s.stopping then Stopping
    else if s.gaveUp then Failed
    else if s.child then Running
    else if s.restartTimer then Recovering
    else Offline
  }

  // ----- The supervisor object -----

  class PaperRuntimeProcessSupervisor {
    const cfg: Config
    var child: bool
    var restartTimer: bool
    var stopping: bool
    var gaveUp: bool
    var restartAttempt: int
    var unstableStreak: nat
    var unstableWindowStart: Option<int>
    var startedAt: Option<int>
    var restartCount: nat
    ghost var journal: seq<Note>

    ghost function Abstract(): State
      reads this
    {
      State(child, restartTimer, stopping, gaveUp, restartAttempt, unstableStreak, unstableWindowStart, startedAt,
        restartCount, journal)
    }

    constructor (cfg: Config)
      requires Accepted(cfg)
      ensures this.cfg == cfg && Abstract() == INITIAL
    {
      this.cfg := cfg;
      child, restartTimer, stopping, gaveUp := false, false, false, false;
      restartAttempt, unstableStreak, unstableWindowStart, startedAt, restartCount := 0, 0, None, None, 0;
      journal := [];
    }

    method StartRuntime(now: int) returns (r: Result<Status>)
      modifies this
      ensures Abstract() == Step(cfg, old(Abstract()), Start(now))
      ensures r == if old(stopping) then Err("PAPER_RUNTIME_SUPERVISOR_STOPPING") else Ok(StatusOf(Abstract()))
    {
      if stopping { return Err("PAPER_RUNTIME_SUPERVISOR_STOPPING"); }
      if child || restartTimer {
        var current := Snapshot();
        return Ok(current);
      }
      if gaveUp {
        gaveUp := false;
        restartAttempt := 0;
        unstableStreak := 0;
        unstableWindowStart := None;
        journal := journal + [ManualReset];
      }
      journal := journal + [Started];
      assert gaveUp == false;
      LaunchChild(now);
      var status := Snapshot();
      return Ok(status);
    }

    method StopRuntime() returns (killed: bool)
      modifies this
      ensures Abstract() == Step(cfg, old(Abstract()), Stop)
      ensures killed == old(child)
    {
      stopping := true;
      journal := journal + [Stopped];
      if restartTimer {
        restartTimer := false;
        journal := journal + [Cancelled];
      }
      killed := child;
    }

    method LaunchChild(now: int)
      modifies this
      ensures Abstract() == Launch(old(Abstract()), now)
    {
      if stopping { return; }
      startedAt := Some(now);
      child := true;
      journal := journal + [Launched(now)];
    }

    method HandleTimer(now: int)
      requires restartTimer
      modifies this
      ensures Abstract() == Step(cfg, old(Abstract()), TimerFires(now))
    {
      restartTimer := false;
      journal := journal + [Fired];
      LaunchChild(now);
    }

    method HandleExit(code: Option<int>, stderrNamesConflict: bool, now: int)
      requires child
      modifies this
      ensures Abstract() == Step(cfg, old(Abstract()), ChildExits(code, stderrNamesConflict, now))
    {
      hide Settle, UptimeAt;
      var uptimeMs := UptimeAt(startedAt, now);
      var leaseConflict := code == Some(LEASE_CONFLICT_EXIT_CODE) || stderrNamesConflict;
      child := false;
      journal := journal + [Exited(now, uptimeMs, code, stderrNamesConflict)];
      if stopping { return; }
      if uptimeMs >= cfg.stableWindowMs {
        restartAttempt := 0;
        unstableStreak := 0;
        unstableWindowStart := None;
      } else {
        if unstableWindowStart.None? {
          unstableWindowStart := Some(now);
        }
        unstableStreak := unstableStreak + 1;
      }
      SettleExit(now, uptimeMs < cfg.stableWindowMs, leaseConflict);
    }

    method SettleExit(now: int, unstable: bool, leaseConflict: bool)
      modifies this
      ensures Abstract() == Settle(cfg, old(Abstract()), now, unstable, leaseConflict)
    {
      if unstableStreak > cfg.maxRestarts
        || (unstableWindowStart.Some? && now - unstableWindowStart.value >= cfg.maxRestartWindowMs)
      {
        gaveUp := true;
        journal := journal + [GaveUp];
        return;
      }
      hide BoundedBackoffMs;
      var delay := if leaseConflict then Some(cfg.writerLeaseRetryMs)
        else BoundedBackoffMs(restartAttempt, cfg.initialBackoffMs, cfg.maxBackoffMs);
      if delay.None? {
        journal := journal + [Threw];
        return;
      }
      if !leaseConflict {
        restartAttempt := restartAttempt + 1;
      }
      restartCount := restartCount + 1;
      restartTimer := true;
      journal := journal + [Scheduled(now, delay.value, unstable, leaseConflict)];
    }

    method Snapshot() returns (status: Status)
      ensures status == StatusOf(Abstract())
    {
      status := if stopping then Stopping
        else if gaveUp then Failed
        else if !child then (if !restartTimer then Offline else Recovering)
        else Running;
    }
  }
}
