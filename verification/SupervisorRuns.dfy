/**
 Whole runs of the PAPER runtime supervisor (scripts/paper-runtime-supervisor.js): what its restart budget bounds, what
 excludes what, and how launches, exits and timers balance, after any sequence of events.
 */
module SupervisorRuns {
  import opened Numbers
  import opened Prelude
  import opened Supervisor

  // ----- Reading the journal -----

  datatype Kind =
    | KStarted | KManualReset | KFired | KLaunched | KExited | KScheduled | KGaveUp | KThrew | KStopped | KCancelled

  function KindOf(n: Note): Kind {
    match n
    case Started => KStarted
    case ManualReset => KManualReset
    case Fired => KFired
    case Launched(_) => KLaunched
    case Exited(_, _, _, _) => KExited
    case Scheduled(_, _, _, _) => KScheduled
    case GaveUp => KGaveUp
    case Threw => KThrew
    case Stopped => KStopped
    case Cancelled => KCancelled
  }

  function Count(journal: seq<Note>, kind: Kind): nat {
    if |journal| == 0 then 0
    else
      var last := |journal| - 1;
      Count(journal[..last], kind) + if KindOf(journal[last]) == kind then 1 else 0
  }

  /** The time of the last launch. */
  function LastLaunch(journal: seq<Note>): Option<int> {
    if |journal| == 0 then None
    else if journal[|journal| - 1].Launched? then Some(journal[|journal| - 1].launchedAt)
    else LastLaunch(journal[..|journal| - 1])
  }

  /** How long a child launched at `launchedAt` ran until `now`; a clock that went back counts as no time. */
  function RanFor(launchedAt: int, now: int): nat {
    if now - launchedAt > 0 then now - launchedAt else 0
  }

  /** The exit of a child that ran for the stable window since its launch. */
  predicate IsStable(cfg: Config, launched: Option<int>, n: Note) {
    n.Exited? && launched.Some? && RanFor(launched.value, n.exitedAt) >= cfg.stableWindowMs
  }

  /** A stable exit or a manual reset restores the restart budget. */
  predicate Restores(cfg: Config, launched: Option<int>, n: Note) {
    n.ManualReset? || IsStable(cfg, launched, n)
  }

  /** The times at which unstable exits scheduled a restart since the budget was last restored. */
  function UnstableRestarts(cfg: Config, journal: seq<Note>): seq<int> {
    if |journal| == 0 then [] else
      var before := journal[..|journal| - 1];
      NextRestarts(cfg, LastLaunch(before), UnstableRestarts(cfg, before), journal[|journal| - 1])
  }

  function NextRestarts(cfg: Config, launched: Option<int>, earlier: seq<int>, n: Note): seq<int> {
    if Restores(cfg, launched, n) then [] else if n.Scheduled? && n.unstable then earlier + [n.scheduledAt] else earlier
  }

  /** The times of the exits since the budget was last restored; all of them are unstable. */
  function UnstableExits(cfg: Config, journal: seq<Note>): seq<int> {
    if |journal| == 0 then [] else
      var before := journal[..|journal| - 1];
      NextExits(cfg, LastLaunch(before), UnstableExits(cfg, before), journal[|journal| - 1])
  }

  function NextExits(cfg: Config, launched: Option<int>, earlier: seq<int>, n: Note): seq<int> {
    if Restores(cfg, launched, n) then [] else if n.Exited? then earlier + [n.exitedAt] else earlier
  }

  function FirstOf(times: seq<int>): Option<int> {
    if times == [] then None else Some(times[0])
  }

  /** How many restarts other than for lease conflicts were scheduled since the budget was last restored. */
  function OrdinaryRestarts(cfg: Config, journal: seq<Note>): nat {
    if |journal| == 0 then 0 else
      var before := journal[..|journal| - 1];
      NextOrdinary(cfg, LastLaunch(before), OrdinaryRestarts(cfg, before), journal[|journal| - 1])
  }

  function NextOrdinary(cfg: Config, launched: Option<int>, earlier: nat, n: Note): nat {
    if Restores(cfg, launched, n) then 0 else if n.Scheduled? && !n.leaseConflict then earlier + 1 else earlier
  }

  /** Has the supervisor given up, with no manual reset after it? */
  predicate FailedAfter(journal: seq<Note>) {
    |journal| > 0 &&
    match journal[|journal| - 1]
    case GaveUp => true
    case ManualReset => false
    case _ => FailedAfter(journal[..|journal| - 1])
  }

  /** No launch comes after a stop, and none comes after giving up without a manual reset in between. */
  ghost predicate LaunchesAllowed(journal: seq<Note>) {
    forall j :: 0 <= j < |journal| && journal[j].Launched? ==> Stopped !in journal[..j] && !FailedAfter(journal[..j])
  }

  /** The delay is the lease wait, or a backoff between two ordered bounds. */
  predicate DelayBounded(cfg: Config, delayMs: int, leaseConflict: bool) {
    if leaseConflict then delayMs == cfg.writerLeaseRetryMs
    else BackoffOrdered(cfg) && IntegerOf(cfg.initialBackoffMs) <= delayMs <= IntegerOf(cfg.maxBackoffMs)
  }

  ghost predicate DelaysBounded(cfg: Config, journal: seq<Note>) {
    forall n :: n in journal && n.Scheduled? ==> DelayBounded(cfg, n.delayMs, n.leaseConflict)
  }

  // ----- The invariant -----

  predicate Exclusive(s: State) {
    && !(s.child && s.restartTimer)
    && (s.gaveUp ==> !s.child && !s.restartTimer)
    && (s.stopping ==> !s.restartTimer)
    && (s.unstableStreak > 0 <==> s.unstableWindowStart.Some?)
    && 0 <= s.restartAttempt <= s.unstableStreak + 1
  }

  ghost predicate Balanced(s: State) {
    var j := s.journal;
    && Count(j, KLaunched) == Count(j, KStarted) + Count(j, KFired)
    && Count(j, KLaunched) == Count(j, KExited) + (if s.child then 1 else 0)
    && s.restartCount == Count(j, KScheduled)
    && s.restartCount == Count(j, KFired) + Count(j, KCancelled) + (if s.restartTimer then 1 else 0)
  }

  ghost predicate Ordered(cfg: Config, s: State) {
    && (s.stopping <==> Stopped in s.journal)
    && s.gaveUp == FailedAfter(s.journal)
    && LaunchesAllowed(s.journal)
    && DelaysBounded(cfg, s.journal)
  }

  ghost predicate WithinBudget(cfg: Config, s: State) {
    var restarts, exits := UnstableRestarts(cfg, s.journal), UnstableExits(cfg, s.journal);
    && |restarts| <= cfg.maxRestarts
    && (exits == [] ==> restarts == [])
    && (forall i :: 0 <= i < |restarts| ==> restarts[i] - exits[0] < cfg.maxRestartWindowMs)
    && (!s.stopping ==>
          && FirstOf(exits) == s.unstableWindowStart && |exits| == s.unstableStreak && |restarts| <= |exits|
          && OrdinaryRestarts(cfg, s.journal) == s.restartAttempt)
    && (!s.stopping && !s.gaveUp ==> s.unstableStreak <= cfg.maxRestarts)
  }

  /** Every exit was timed from the launch before it. */
  ghost predicate ExitsTimed(journal: seq<Note>) {
    forall j :: 0 <= j < |journal| && journal[j].Exited? ==>
      var launched := LastLaunch(journal[..j]);
      launched.Some? && journal[j].uptimeMs == RanFor(launched.value, journal[j].exitedAt)
  }

  ghost predicate Timed(s: State) {
    s.startedAt == LastLaunch(s.journal) && (s.child ==> s.startedAt.Some?) && ExitsTimed(s.journal)
  }

  /** While not stopping, the supervisor is idle only before its first start or after a throw. */
  predicate Supervising(s: State) {
    !s.stopping && |s.journal| > 0 && Threw !in s.journal ==> s.child || s.restartTimer || s.gaveUp
  }

  ghost predicate Core(cfg: Config, s: State) {
    Exclusive(s) && Balanced(s) && Ordered(cfg, s) && WithinBudget(cfg, s) && Supervising(s)
  }

  ghost predicate Invariant(cfg: Config, s: State) {
    Core(cfg, s) && Timed(s)
  }

  // ----- One note -----

  lemma NoteReads(cfg: Config, journal: seq<Note>, n: Note)
    ensures var longer, launched := journal + [n], LastLaunch(journal);
      && (forall kind :: Count(longer, kind) == Count(journal, kind) + if KindOf(n) == kind then 1 else 0)
      && UnstableRestarts(cfg, longer) == NextRestarts(cfg, launched, UnstableRestarts(cfg, journal), n)
      && UnstableExits(cfg, longer) == NextExits(cfg, launched, UnstableExits(cfg, journal), n)
      && OrdinaryRestarts(cfg, longer) == NextOrdinary(cfg, launched, OrdinaryRestarts(cfg, journal), n)
      && FailedAfter(longer) == (n == GaveUp || (n != ManualReset && FailedAfter(journal)))
      && LastLaunch(longer) == if n.Launched? then Some(n.launchedAt) else launched
  {
    assert (journal + [n])[..|journal|] == journal;
  }

  lemma NoteTimes(journal: seq<Note>, n: Note)
    requires ExitsTimed(journal)
    requires n.Exited? ==>
      LastLaunch(journal).Some? && n.uptimeMs == RanFor(LastLaunch(journal).value, n.exitedAt)
    ensures ExitsTimed(journal + [n])
  {
    hide LastLaunch, RanFor;
    var longer := journal + [n];
    assert longer[..|journal|] == journal;
    assert forall j :: 0 <= j < |journal| ==> longer[..j] == journal[..j] && longer[j] == journal[j];
  }

  lemma NoteOrders(cfg: Config, journal: seq<Note>, n: Note)
    requires LaunchesAllowed(journal) && DelaysBounded(cfg, journal)
    requires n.Launched? ==> Stopped !in journal && !FailedAfter(journal)
    requires n.Scheduled? ==> DelayBounded(cfg, n.delayMs, n.leaseConflict)
    ensures LaunchesAllowed(journal + [n]) && DelaysBounded(cfg, journal + [n])
  {
    var longer := journal + [n];
    forall j | 0 <= j < |longer| && longer[j].Launched? ensures Stopped !in longer[..j] && !FailedAfter(longer[..j]) {
      assert longer[..j] == journal[..j];
      if j == |journal| {
        assert journal[..j] == journal;
      }
    }
  }

  /** A delay exists exactly for a safe attempt number and ordered safe bounds, and lies between the bounds. */
  lemma BackoffBounds(cfg: Config, attempt: int)
    ensures var delay := BoundedBackoffMs(attempt, cfg.initialBackoffMs, cfg.maxBackoffMs);
      && (delay.Some? <==> 0 <= attempt <= MAX_SAFE && BackoffOrdered(cfg))
      && (delay.Some? ==> DelayBounded(cfg, delay.value, false))
  {
    if 0 <= attempt && BackoffOrdered(cfg) {
      ScaledUp(IntegerOf(cfg.initialBackoffMs), Pow2(if attempt < MAXIMUM_EXPONENT then attempt else MAXIMUM_EXPONENT));
    }
    hide Pow2;
  }

  lemma ScaledUp(n: int, factor: nat)
    requires n >= 0 && factor >= 1
    ensures n * factor >= n
  {
  }

  // ----- One event -----

  lemma NoteInJournal(journal: seq<Note>, n: Note)
    ensures forall m :: m in journal + [n] <==> m in journal || m == n
  {
  }

  lemma LaunchKeeps(cfg: Config, s: State, note: Note, now: int)
    requires note == Started || note == Fired
    requires !s.stopping && !s.gaveUp && !s.child
    requires note == Started ==> !s.restartTimer
    requires note == Fired ==> s.restartTimer
    requires Exclusive(s) && Balanced(s) && Ordered(cfg, s) && WithinBudget(cfg, s)
    ensures Core(cfg, Launch(Noted(s.(restartTimer := false), note), now))
  {
    hide Count, UnstableRestarts, UnstableExits, OrdinaryRestarts, LastLaunch, FailedAfter, LaunchesAllowed,
      DelaysBounded;
    var after := Launch(Noted(s.(restartTimer := false), note), now);
    assert Ordered(cfg, after) by {
      hide Balanced, WithinBudget;
      NoteReads(cfg, s.journal, note);
      NoteReads(cfg, s.journal + [note], Launched(now));
      NoteInJournal(s.journal, note);
      NoteInJournal(s.journal + [note], Launched(now));
      NoteOrders(cfg, s.journal, note);
      NoteOrders(cfg, s.journal + [note], Launched(now));
    }
    hide Ordered;
    NoteReads(cfg, s.journal, note);
    NoteReads(cfg, s.journal + [note], Launched(now));
  }

  lemma StartKeeps(cfg: Config, s: State, now: int)
    requires Accepted(cfg) && Core(cfg, s)
    ensures Core(cfg, OnStart(s, now))
  {
    if !s.stopping && !s.child && !s.restartTimer {
      if s.gaveUp {
        var reset := s.(gaveUp := false, restartAttempt := 0, unstableStreak := 0, unstableWindowStart := None);
        var restored := Noted(reset, ManualReset);
        ResetKeeps(cfg, s);
        hide Count, Exclusive, Balanced, Ordered, WithinBudget;
        LaunchKeeps(cfg, restored, Started, now);
        assert restored.(restartTimer := false) == restored;
      } else {
        hide Count, Balanced, Ordered, WithinBudget;
        LaunchKeeps(cfg, s, Started, now);
        assert s.(restartTimer := false) == s;
      }
    }
  }

  lemma ResetKeeps(cfg: Config, s: State)
    requires Core(cfg, s) && !s.stopping
    ensures var reset := s.(gaveUp := false, restartAttempt := 0, unstableStreak := 0, unstableWindowStart := None);
      var restored := Noted(reset, ManualReset);
      Exclusive(restored) && Balanced(restored) && Ordered(cfg, restored) && WithinBudget(cfg, restored)
  {
    hide Count, UnstableRestarts, UnstableExits, OrdinaryRestarts, LastLaunch, FailedAfter, LaunchesAllowed,
      DelaysBounded;
    NoteReads(cfg, s.journal, ManualReset);
    NoteOrders(cfg, s.journal, ManualReset);
    NoteInJournal(s.journal, ManualReset);
  }

  lemma StopKeeps(cfg: Config, s: State)
    requires Core(cfg, s)
    ensures Core(cfg, OnStop(s))
  {
    hide Count, UnstableRestarts, UnstableExits, OrdinaryRestarts, LastLaunch, FailedAfter, LaunchesAllowed,
      DelaysBounded;
    var after := OnStop(s);
    assert Ordered(cfg, after) by {
      hide Balanced, WithinBudget;
      NoteReads(cfg, s.journal, Stopped);
      NoteReads(cfg, s.journal + [Stopped], Cancelled);
      NoteInJournal(s.journal, Stopped);
      NoteInJournal(s.journal + [Stopped], Cancelled);
      NoteOrders(cfg, s.journal, Stopped);
      NoteOrders(cfg, s.journal + [Stopped], Cancelled);
    }
    hide Ordered;
    NoteReads(cfg, s.journal, Stopped);
    NoteReads(cfg, s.journal + [Stopped], Cancelled);
  }

  /** The note of an exit, as the exit handler writes it. */
  function ExitNote(s: State, e: Event): Note
    requires e.ChildExits?
  {
    Exited(e.now, UptimeAt(s.startedAt, e.now), e.code, e.stderrNamesConflict)
  }

  /** The state between the two halves of an exit: no child, no timer, and the exit already charged to the budget. */
  ghost predicate Charged(cfg: Config, s: State, now: int, unstable: bool) {
    && !s.child && !s.restartTimer && !s.stopping && !s.gaveUp
    && Exclusive(s) && Balanced(s) && Ordered(cfg, s)
    && s.restartAttempt <= s.unstableStreak + (if unstable then 0 else 1)
    && (!unstable ==> s.restartAttempt == 0)
    && OrdinaryRestarts(cfg, s.journal) == s.restartAttempt
    && var restarts, exits := UnstableRestarts(cfg, s.journal), UnstableExits(cfg, s.journal);
    && |restarts| + (if unstable then 1 else 0) <= s.unstableStreak <= cfg.maxRestarts + 1
    && |exits| == s.unstableStreak && FirstOf(exits) == s.unstableWindowStart && (unstable <==> exits != [])
    && (forall i :: 0 <= i < |restarts| ==> restarts[i] - exits[0] < cfg.maxRestartWindowMs)
  }

  /** The exit as the journal tells it: how long the child ran since its launch, and whether that was long enough. */
  lemma ExitIsTimed(cfg: Config, s: State, e: Event)
    requires Timed(s) && s.child && e.ChildExits?
    ensures LastLaunch(s.journal).Some?
    ensures UptimeAt(s.startedAt, e.now) == RanFor(LastLaunch(s.journal).value, e.now)
    ensures IsStable(cfg, LastLaunch(s.journal), ExitNote(s, e)) <==> UptimeAt(s.startedAt, e.now) >= cfg.stableWindowMs
  {
    hide LastLaunch;
  }

  lemma ConsumeKeeps(cfg: Config, s: State, e: Event)
    requires Accepted(cfg) && Invariant(cfg, s) && s.child && !s.stopping && e.ChildExits?
    ensures var uptime := UptimeAt(s.startedAt, e.now);
      Charged(cfg, ConsumeBudget(cfg, Noted(s.(child := false), ExitNote(s, e)), e.now, uptime), e.now,
        uptime < cfg.stableWindowMs)
  {
    hide Count, UnstableRestarts, UnstableExits, OrdinaryRestarts, LastLaunch, FailedAfter, LaunchesAllowed,
      DelaysBounded, UptimeAt, Timed, IsStable;
    ExitIsTimed(cfg, s, e);
    NoteReads(cfg, s.journal, ExitNote(s, e));
    NoteOrders(cfg, s.journal, ExitNote(s, e));
    NoteInJournal(s.journal, ExitNote(s, e));
  }

  lemma SettleKeeps(cfg: Config, s: State, now: int, unstable: bool, conflict: bool)
    requires Accepted(cfg) && Charged(cfg, s, now, unstable)
    ensures Core(cfg, Settle(cfg, s, now, unstable, conflict))
  {
    hide Count, UnstableRestarts, UnstableExits, OrdinaryRestarts, LastLaunch, FailedAfter, LaunchesAllowed,
      DelaysBounded, BoundedBackoffMs;
    BackoffBounds(cfg, s.restartAttempt);
    var settled := Settle(cfg, s, now, unstable, conflict);
    var n := settled.journal[|s.journal|];
    assert settled.journal == s.journal + [n];
    NoteReads(cfg, s.journal, n);
    NoteOrders(cfg, s.journal, n);
    NoteInJournal(s.journal, n);
  }

  /** Every event the environment can deliver keeps the invariant. */
  lemma StepKeeps(cfg: Config, s: State, e: Event)
    requires Accepted(cfg) && Invariant(cfg, s) && Enabled(s, e)
    ensures Invariant(cfg, Step(cfg, s, e))
  {
    hide Count, UnstableRestarts, UnstableExits, OrdinaryRestarts, Balanced, Ordered, WithinBudget;
    StepKeepsTimed(cfg, s, e);
    hide Timed;
    match e
    case Start(now) => StartKeeps(cfg, s, now);
    case Stop => StopKeeps(cfg, s);
    case TimerFires(now) => LaunchKeeps(cfg, s, Fired, now);
    case ChildExits(code, tail, now) => ExitKeeps(cfg, s, e);
  }

  lemma ExitKeeps(cfg: Config, s: State, e: Event)
    requires Accepted(cfg) && Invariant(cfg, s) && s.child && e.ChildExits?
    ensures Core(cfg, OnExit(cfg, s, e))
  {
    hide Charged, Invariant, Core, Settle, ConsumeBudget, UptimeAt;
    var uptime := UptimeAt(s.startedAt, e.now);
    if s.stopping {
      LastExitKeeps(cfg, s, e);
    } else {
      ConsumeKeeps(cfg, s, e);
      var charged := ConsumeBudget(cfg, Noted(s.(child := false), ExitNote(s, e)), e.now, uptime);
      SettleKeeps(cfg, charged, e.now, uptime < cfg.stableWindowMs,
        e.code == Some(LEASE_CONFLICT_EXIT_CODE) || e.stderrNamesConflict);
    }
  }

  /** The exit of a child that was told to stop. */
  lemma LastExitKeeps(cfg: Config, s: State, e: Event)
    requires Invariant(cfg, s) && s.child && s.stopping && e.ChildExits?
    ensures Core(cfg, Noted(s.(child := false), ExitNote(s, e)))
  {
    hide Count, UnstableRestarts, UnstableExits, OrdinaryRestarts, LastLaunch, FailedAfter, LaunchesAllowed,
      DelaysBounded, Timed, IsStable;
    NoteReads(cfg, s.journal, ExitNote(s, e));
    NoteOrders(cfg, s.journal, ExitNote(s, e));
    NoteInJournal(s.journal, ExitNote(s, e));
  }

  // ----- Times -----

  lemma NoteKeepsTimed(cfg: Config, s: State, n: Note)
    requires Timed(s) && !n.Launched? && !n.Exited?
    ensures Timed(Noted(s, n))
  {
    hide LastLaunch, ExitsTimed;
    NoteReads(cfg, s.journal, n);
    NoteTimes(s.journal, n);
  }

  lemma LaunchKeepsTimed(cfg: Config, s: State, now: int)
    requires Timed(s)
    ensures Timed(Launch(s, now))
  {
    hide LastLaunch, ExitsTimed;
    NoteReads(cfg, s.journal, Launched(now));
    NoteTimes(s.journal, Launched(now));
  }

  lemma ExitKeepsTimed(cfg: Config, s: State, e: Event)
    requires Timed(s) && s.child && e.ChildExits?
    ensures Timed(Noted(s.(child := false), ExitNote(s, e)))
  {
    hide LastLaunch, ExitsTimed;
    ExitIsTimed(cfg, s, e);
    NoteReads(cfg, s.journal, ExitNote(s, e));
    NoteTimes(s.journal, ExitNote(s, e));
  }

  lemma SettleKeepsTimed(cfg: Config, s: State, now: int, unstable: bool, conflict: bool)
    requires Timed(s)
    ensures Timed(Settle(cfg, s, now, unstable, conflict))
  {
    hide LastLaunch, ExitsTimed, BoundedBackoffMs;
    var settled := Settle(cfg, s, now, unstable, conflict);
    var n := settled.journal[|s.journal|];
    assert settled.journal == s.journal + [n];
    NoteKeepsTimed(cfg, s, n);
  }

  lemma StepKeepsTimed(cfg: Config, s: State, e: Event)
    requires Timed(s) && Enabled(s, e)
    ensures Timed(Step(cfg, s, e))
  {
    hide LastLaunch, ExitsTimed, Settle, UptimeAt;
    match e
    case Start(now) =>
      var reset := s.(gaveUp := false, restartAttempt := 0, unstableStreak := 0, unstableWindowStart := None);
      NoteKeepsTimed(cfg, s, Started);
      LaunchKeepsTimed(cfg, Noted(s, Started), now);
      NoteKeepsTimed(cfg, reset, ManualReset);
      NoteKeepsTimed(cfg, Noted(reset, ManualReset), Started);
      LaunchKeepsTimed(cfg, Noted(Noted(reset, ManualReset), Started), now);
    case Stop =>
      var stopped := s.(stopping := true, restartTimer := false);
      NoteKeepsTimed(cfg, stopped, Stopped);
      NoteKeepsTimed(cfg, Noted(stopped, Stopped), Cancelled);
    case TimerFires(now) =>
      NoteKeepsTimed(cfg, s.(restartTimer := false), Fired);
      LaunchKeepsTimed(cfg, Noted(s.(restartTimer := false), Fired), now);
    case ChildExits(_, _, now) =>
      ExitKeepsTimed(cfg, s, e);
      var uptime := UptimeAt(s.startedAt, now);
      var charged := ConsumeBudget(cfg, Noted(s.(child := false), ExitNote(s, e)), now, uptime);
      assert Timed(charged);
      SettleKeepsTimed(cfg, charged, now, uptime < cfg.stableWindowMs,
        e.code == Some(LEASE_CONFLICT_EXIT_CODE) || e.stderrNamesConflict);
  }

  // ----- Whole runs -----

  function Run(cfg: Config, s: State, events: seq<Event>): State
    decreases |events|
  {
    if |events| == 0 then s else Run(cfg, Step(cfg, s, events[0]), events[1..])
  }

  ghost predicate Deliverable(cfg: Config, s: State, events: seq<Event>)
    decreases |events|
  {
    |events| > 0 ==> Enabled(s, events[0]) && Deliverable(cfg, Step(cfg, s, events[0]), events[1..])
  }

  lemma {:induction false} RunKeeps(cfg: Config, s: State, events: seq<Event>)
    requires Accepted(cfg) && Invariant(cfg, s) && Deliverable(cfg, s, events)
    ensures Invariant(cfg, Run(cfg, s, events))
    decreases |events|
  {
    hide Invariant, Step, Enabled;
    if |events| > 0 {
      StepKeeps(cfg, s, events[0]);
      RunKeeps(cfg, Step(cfg, s, events[0]), events[1..]);
    }
  }

  lemma NothingHappened(cfg: Config)
    ensures (forall kind :: Count([], kind) == 0)
    ensures UnstableRestarts(cfg, []) == UnstableExits(cfg, []) == [] && OrdinaryRestarts(cfg, []) == 0
    ensures LastLaunch([]) == None && !FailedAfter([])
    ensures LaunchesAllowed([]) && DelaysBounded(cfg, []) && ExitsTimed([])
  {
  }

  lemma NothingIsWrong(cfg: Config)
    ensures Exclusive(INITIAL) && Ordered(cfg, INITIAL) && Timed(INITIAL) && Supervising(INITIAL)
  {
    hide Count, UnstableRestarts, UnstableExits, OrdinaryRestarts, LastLaunch, FailedAfter, LaunchesAllowed,
      DelaysBounded, ExitsTimed, LeaseRetryCovers, WindowCoversBackoff;
    NothingHappened(cfg);
  }

  lemma NothingIsOwed()
    ensures Balanced(INITIAL)
  {
  }

  lemma NothingIsSpent(cfg: Config)
    requires Accepted(cfg)
    ensures WithinBudget(cfg, INITIAL)
  {
    hide Count, UnstableRestarts, UnstableExits, OrdinaryRestarts, LastLaunch, FailedAfter, LaunchesAllowed,
      DelaysBounded, ExitsTimed, LeaseRetryCovers, WindowCoversBackoff;
    NothingHappened(cfg);
  }

  lemma InitialHolds(cfg: Config)
    requires Accepted(cfg)
    ensures Invariant(cfg, INITIAL)
  {
    hide Exclusive, Balanced, Ordered, WithinBudget, Timed, Supervising;
    NothingIsWrong(cfg);
    NothingIsOwed();
    NothingIsSpent(cfg);
  }

  /** Every reachable state satisfies the invariant. */
  lemma ReachableInvariant(cfg: Config, events: seq<Event>)
    requires Accepted(cfg) && Deliverable(cfg, INITIAL, events)
    ensures Invariant(cfg, Run(cfg, INITIAL, events))
  {
    hide Invariant, Run, Deliverable;
    InitialHolds(cfg);
    RunKeeps(cfg, INITIAL, events);
  }

  /**
   The restart budget over every run: since the last stable exit or manual reset at most `maxRestarts` unstable exits
   scheduled a restart, each less than `maxRestartWindowMs` after the first unstable exit of that stretch. Whether an
   exit was stable is read off the times of launch and exit.
   */
  lemma BudgetHolds(cfg: Config, events: seq<Event>)
    requires Accepted(cfg) && Deliverable(cfg, INITIAL, events)
    ensures var journal := Run(cfg, INITIAL, events).journal;
      && |UnstableRestarts(cfg, journal)| <= cfg.maxRestarts
      && forall i :: 0 <= i < |UnstableRestarts(cfg, journal)| ==>
        && UnstableExits(cfg, journal) != []
        && UnstableRestarts(cfg, journal)[i] - UnstableExits(cfg, journal)[0] < cfg.maxRestartWindowMs
  {
    hide Deliverable, Run, Balanced, Ordered, UnstableRestarts, UnstableExits, Timed, OrdinaryRestarts;
    ReachableInvariant(cfg, events);
  }

  /**
   Exclusion over every run: no state holds a child and a timer, a failed one holds neither, and the journal never
   shows a launch after a stop or after giving up without a manual reset.
   */
  lemma ExclusionHolds(cfg: Config, events: seq<Event>)
    requires Accepted(cfg) && Deliverable(cfg, INITIAL, events)
    ensures var s := Run(cfg, INITIAL, events); Exclusive(s) && LaunchesAllowed(s.journal)
    ensures var s := Run(cfg, INITIAL, events); Stopped in s.journal <==> StatusOf(s) == Stopping
    ensures var s := Run(cfg, INITIAL, events);
      Stopped !in s.journal ==> (FailedAfter(s.journal) <==> StatusOf(s) == Failed)
  {
    hide Deliverable, Run, Balanced, LaunchesAllowed, FailedAfter, WithinBudget, Timed;
    ReachableInvariant(cfg, events);
  }

  /**
   Conservation over every run: launches come from starts and firings, and every timer fired, is pending or was
   cancelled.
   */
  lemma ConservationHolds(cfg: Config, events: seq<Event>)
    requires Accepted(cfg) && Deliverable(cfg, INITIAL, events)
    ensures var s := Run(cfg, INITIAL, events); Balanced(s) && DelaysBounded(cfg, s.journal)
  {
    hide Deliverable, Run, Balanced, LaunchesAllowed, FailedAfter, WithinBudget, Timed, DelaysBounded;
    ReachableInvariant(cfg, events);
  }

  /**
   The status over every run, read off the journal: stopped for good after a stop, failed since the last give-up that no
   manual start followed, running while more children were launched than exited, recovering while a timer is pending.
   */
  lemma StatusTells(cfg: Config, events: seq<Event>)
    requires Accepted(cfg) && Deliverable(cfg, INITIAL, events)
    ensures var s := Run(cfg, INITIAL, events); var j := s.journal;
      && (StatusOf(s) == Stopping <==> Stopped in j)
      && (StatusOf(s) == Failed <==> Stopped !in j && FailedAfter(j))
      && (StatusOf(s) == Running <==> Stopped !in j && Count(j, KLaunched) > Count(j, KExited))
      && (StatusOf(s) == Recovering <==>
            Stopped !in j && Count(j, KScheduled) > Count(j, KFired) + Count(j, KCancelled))
  {
    hide Deliverable, Run, Count, FailedAfter, WithinBudget, Timed, Supervising;
    ReachableInvariant(cfg, events);
  }

  /** Entry `i` is the last launch before entry `j`. */
  ghost predicate IsLaunchBefore(journal: seq<Note>, i: nat, j: nat)
    requires i < j <= |journal|
  {
    journal[i].Launched? && forall k :: i < k < j ==> !journal[k].Launched?
  }

  /**
   Every exit of every run was timed from the launch before it: the time between them, or none if the clock went back.
   */
  lemma ExitsAreTimed(cfg: Config, events: seq<Event>)
    requires Accepted(cfg) && Deliverable(cfg, INITIAL, events)
    ensures var journal := Run(cfg, INITIAL, events).journal;
      forall j :: 0 <= j < |journal| && journal[j].Exited? ==>
        exists i :: 0 <= i < j && IsLaunchBefore(journal, i, j) &&
          journal[j].uptimeMs == RanFor(journal[i].launchedAt, journal[j].exitedAt)
  {
    hide Deliverable, Run, Core;
    ReachableInvariant(cfg, events);
    var journal := Run(cfg, INITIAL, events).journal;
    forall j | 0 <= j < |journal| && journal[j].Exited?
      ensures exists i ::
        0 <= i < j && IsLaunchBefore(journal, i, j) &&
        journal[j].uptimeMs == RanFor(journal[i].launchedAt, journal[j].exitedAt)
    {
      var i := LaunchBefore(journal[..j]);
      assert forall k :: 0 <= k < j ==> journal[..j][k] == journal[k];
      assert IsLaunchBefore(journal, i, j);
    }
  }

  lemma {:induction false} LaunchBefore(journal: seq<Note>) returns (i: nat)
    requires LastLaunch(journal).Some?
    ensures i < |journal| && journal[i].Launched? && LastLaunch(journal) == Some(journal[i].launchedAt)
    ensures forall k :: i < k < |journal| ==> !journal[k].Launched?
    decreases |journal|
  {
    if journal[|journal| - 1].Launched? {
      i := |journal| - 1;
    } else {
      i := LaunchBefore(journal[..|journal| - 1]);
    }
  }

  /** A note carries the time, exit code and output of the event that left it. */
  predicate IsNoteOf(e: Event, n: Note) {
    match n
    case Launched(at) => e == Start(at) || e == TimerFires(at)
    case Exited(at, _, code, marker) => e == ChildExits(code, marker, at)
    case Scheduled(at, _, _, conflict) =>
      e.ChildExits? && e.now == at && conflict == (e.code == Some(75) || e.stderrNamesConflict)
    case _ => true
  }

  /** The journal grew by notes of one event. */
  ghost predicate GrewBy(e: Event, before: seq<Note>, after: seq<Note>) {
    && |before| <= |after| && after[..|before|] == before
    && forall j :: |before| <= j < |after| ==> IsNoteOf(e, after[j])
  }

  lemma GrowsBy(e: Event, before: seq<Note>, between: seq<Note>, n: Note)
    requires GrewBy(e, before, between) && IsNoteOf(e, n)
    ensures GrewBy(e, before, between + [n])
  {
    hide IsNoteOf;
  }

  lemma GrewByNothing(e: Event, journal: seq<Note>)
    ensures GrewBy(e, journal, journal)
  {
  }

  lemma LaunchIsOfTheEvent(before: seq<Note>, s: State, e: Event, now: int)
    requires GrewBy(e, before, s.journal) && (e == Start(now) || e == TimerFires(now))
    ensures GrewBy(e, before, Launch(s, now).journal)
  {
    hide GrewBy;
    GrowsBy(e, before, s.journal, Launched(now));
  }

  lemma SettlingIsOfTheEvent(cfg: Config, before: seq<Note>, s: State, e: Event, unstable: bool, conflict: bool)
    requires GrewBy(e, before, s.journal) && e.ChildExits?
    requires conflict == (e.code == Some(75) || e.stderrNamesConflict)
    ensures GrewBy(e, before, Settle(cfg, s, e.now, unstable, conflict).journal)
  {
    hide GrewBy, BoundedBackoffMs, Exhausted;
    var after := Settle(cfg, s, e.now, unstable, conflict).journal;
    var n := after[|s.journal|];
    assert after == s.journal + [n];
    GrowsBy(e, before, s.journal, n);
  }

  /** What an event adds to the journal is its own, and every exit is noted first. */
  lemma NotesAreOfTheEvent(cfg: Config, s: State, e: Event)
    ensures GrewBy(e, s.journal, Step(cfg, s, e).journal)
  {
    hide GrewBy, Launch, Settle, UptimeAt;
    var before := s.journal;
    GrewByNothing(e, before);
    match e
    case Start(now) =>
      var reset := s.(gaveUp := false, restartAttempt := 0, unstableStreak := 0, unstableWindowStart := None);
      GrowsBy(e, before, before, Started);
      GrowsBy(e, before, before, ManualReset);
      GrowsBy(e, before, before + [ManualReset], Started);
      LaunchIsOfTheEvent(before, Noted(s, Started), e, now);
      LaunchIsOfTheEvent(before, Noted(Noted(reset, ManualReset), Started), e, now);
    case Stop =>
      GrowsBy(e, before, before, Stopped);
      GrowsBy(e, before, before + [Stopped], Cancelled);
    case TimerFires(now) =>
      GrowsBy(e, before, before, Fired);
      LaunchIsOfTheEvent(before, Noted(s.(restartTimer := false), Fired), e, now);
    case ChildExits(code, marker, now) =>
      var uptime := UptimeAt(s.startedAt, now);
      GrowsBy(e, before, before, ExitNote(s, e));
      SettlingIsOfTheEvent(cfg, before, ConsumeBudget(cfg, Noted(s.(child := false), ExitNote(s, e)), now, uptime), e,
        uptime < cfg.stableWindowMs, code == Some(LEASE_CONFLICT_EXIT_CODE) || marker);
  }

  /**
   A child that ran for the stable window since its launch restores the budget with its exit, and never ends FAILED.
   */
  lemma StableExitNeverFails(cfg: Config, s: State, e: Event, launchedAt: int)
    requires Accepted(cfg) && Invariant(cfg, s) && e.ChildExits? && s.child
    requires LastLaunch(s.journal) == Some(launchedAt) && RanFor(launchedAt, e.now) >= cfg.stableWindowMs
    ensures !Step(cfg, s, e).gaveUp
    ensures !s.stopping ==> Step(cfg, s, e).unstableStreak == 0 && UnstableExits(cfg, Step(cfg, s, e).journal) == []
  {
    hide UnstableExits, BoundedBackoffMs, UptimeAt, LastLaunch, Balanced, WithinBudget, Ordered;
    ExitIsTimed(cfg, s, e);
    NoteReads(cfg, s.journal, ExitNote(s, e));
    var after := Step(cfg, s, e);
    if !s.stopping {
      var exited := s.journal + [ExitNote(s, e)];
      NoteReads(cfg, exited, after.journal[|exited|]);
      assert after.journal == exited + [after.journal[|exited|]];
    }
  }

  /**
   When the supervisor gives up, for every reachable state and every exit while not stopping: exactly when the exits
   since the last stable one or manual reset, this one included, outnumber the budget, or the first of them lies the
   whole window back. All of that is read off the times of launches and exits.
   */
  lemma GivesUpIff(cfg: Config, s: State, e: Event)
    requires Accepted(cfg) && Invariant(cfg, s) && e.ChildExits? && s.child && !s.stopping
    ensures var exits := UnstableExits(cfg, s.journal + [ExitNote(s, e)]);
      Step(cfg, s, e).gaveUp <==>
        |exits| > cfg.maxRestarts || (exits != [] && e.now - exits[0] >= cfg.maxRestartWindowMs)
  {
    hide Invariant, Charged, BoundedBackoffMs, UptimeAt;
    ConsumeKeeps(cfg, s, e);
    var uptime := UptimeAt(s.startedAt, e.now);
    var charged := ConsumeBudget(cfg, Noted(s.(child := false), ExitNote(s, e)), e.now, uptime);
    ChargedExits(cfg, charged, e.now, uptime < cfg.stableWindowMs);
  }

  lemma ChargedExits(cfg: Config, s: State, now: int, unstable: bool)
    requires Charged(cfg, s, now, unstable)
    ensures !s.gaveUp && |UnstableExits(cfg, s.journal)| == s.unstableStreak
    ensures FirstOf(UnstableExits(cfg, s.journal)) == s.unstableWindowStart
  {
    hide UnstableExits, Balanced, Ordered;
  }

  /** The delay after `n` earlier ordinary restarts: the first backoff doubled `n` times, thirty at most, and capped. */
  lemma {:induction false} BackoffDoubles(cfg: Config, n: nat)
    requires BackoffOrdered(cfg) && n < MAX_SAFE
    ensures var delay := BoundedBackoffMs(n, cfg.initialBackoffMs, cfg.maxBackoffMs);
      var next := BoundedBackoffMs(n + 1, cfg.initialBackoffMs, cfg.maxBackoffMs);
      var max := IntegerOf(cfg.maxBackoffMs);
      && delay.Some? && next.Some?
      && (n == 0 ==> delay.value == IntegerOf(cfg.initialBackoffMs))
      && next.value == (if n >= 30 then delay.value else if 2 * delay.value < max then 2 * delay.value else max)
  {
    var initial := IntegerOf(cfg.initialBackoffMs);
    assert Pow2(0) == 1;
    if n < 30 {
      Doubled(initial, Pow2(n));
      ScaledUp(initial, Pow2(n));
    }
    hide Pow2;
  }

  lemma Doubled(n: int, factor: nat)
    ensures n * (2 * factor) == 2 * (n * factor)
  {
  }

  /**
   The restart after an exit that does not give up: after a lease conflict the lease wait, else the backoff for the
   number of ordinary restarts since the last stable exit or manual reset, as the journal counts them.
   */
  lemma DelayIsBackoff(cfg: Config, s: State, e: Event)
    requires Accepted(cfg) && Invariant(cfg, s) && e.ChildExits? && s.child && !s.stopping && !Step(cfg, s, e).gaveUp
    ensures var exited := s.journal + [ExitNote(s, e)];
      var conflict := e.code == Some(75) || e.stderrNamesConflict;
      var delay := if conflict then Some(cfg.writerLeaseRetryMs)
        else BoundedBackoffMs(OrdinaryRestarts(cfg, exited), cfg.initialBackoffMs, cfg.maxBackoffMs);
      var stable := IsStable(cfg, LastLaunch(s.journal), ExitNote(s, e));
      Step(cfg, s, e).journal ==
        exited + [if delay.None? then Threw else Scheduled(e.now, delay.value, !stable, conflict)]
  {
    hide Invariant, Charged, BoundedBackoffMs, UptimeAt, OrdinaryRestarts, LastLaunch, IsStable;
    ConsumeKeeps(cfg, s, e);
    var uptime := UptimeAt(s.startedAt, e.now);
    var charged := ConsumeBudget(cfg, Noted(s.(child := false), ExitNote(s, e)), e.now, uptime);
    ChargedAttempts(cfg, charged, e.now, uptime < cfg.stableWindowMs);
    InvariantTimes(cfg, s);
    ExitIsTimed(cfg, s, e);
  }

  lemma InvariantTimes(cfg: Config, s: State)
    requires Invariant(cfg, s)
    ensures Timed(s)
  {
    hide Core, Timed;
  }

  lemma ChargedAttempts(cfg: Config, s: State, now: int, unstable: bool)
    requires Charged(cfg, s, now, unstable)
    ensures OrdinaryRestarts(cfg, s.journal) == s.restartAttempt
  {
    hide OrdinaryRestarts, Balanced, Ordered;
  }

  /** A start while not stopping leaves a supervised runtime: it launches at once unless a child or a timer is there. */
  lemma StartLaunches(cfg: Config, s: State, now: int)
    requires Invariant(cfg, s) && !s.stopping
    ensures var after := Step(cfg, s, Start(now));
      if s.child || s.restartTimer then after == s
      else after.child && !after.gaveUp && LastLaunch(after.journal) == Some(now)
  {
    hide Core;
    StepKeepsTimed(cfg, s, Start(now));
  }

  /** A firing timer launches at once. */
  lemma TimerLaunches(cfg: Config, s: State, now: int)
    requires Invariant(cfg, s) && s.restartTimer
    ensures var after := Step(cfg, s, TimerFires(now));
      after.child && !after.restartTimer && LastLaunch(after.journal) == Some(now)
  {
    hide Balanced, Ordered, WithinBudget;
    StepKeepsTimed(cfg, s, TimerFires(now));
  }

  /** What the constructor accepts, in numbers. */
  lemma AcceptedLimits(cfg: Config)
    ensures Accepted(cfg) <==>
      && 30000 <= cfg.writerLeaseRetryMs <= 9007199254740991
      && 1 <= cfg.maxRestarts <= 9007199254740991
      && -9007199254740991 <= cfg.maxRestartWindowMs <= 9007199254740991
      && (cfg.initialBackoffMs.Finite? ==> cfg.maxRestartWindowMs as real >= cfg.initialBackoffMs.value)
      && !cfg.initialBackoffMs.PositiveInfinity?
  {
  }

  /**
   An exit that does not give up is followed by a pending restart exactly when it was a lease conflict or the two
   backoff bounds are ordered safe integers; the constructor accepts configurations where they are not, and then the
   exit handler throws.
   */
  lemma RestartFollowsIffBackoffOrdered(cfg: Config, s: State, e: Event)
    requires Accepted(cfg) && Invariant(cfg, s) && e.ChildExits? && s.child && !s.stopping
    requires !Step(cfg, s, e).gaveUp
    ensures Step(cfg, s, e).restartTimer <==>
      e.code == Some(LEASE_CONFLICT_EXIT_CODE) || e.stderrNamesConflict || BackoffOrdered(cfg)
    ensures !Step(cfg, s, e).restartTimer ==> StatusOf(Step(cfg, s, e)) == Offline
  {
    var uptime := UptimeAt(s.startedAt, e.now);
    var spent := ConsumeBudget(cfg, Noted(s.(child := false), ExitNote(s, e)), e.now, uptime);
    BackoffBounds(cfg, spent.restartAttempt);
    hide BoundedBackoffMs, UptimeAt, Balanced, Ordered, Timed, UnstableExits, UnstableRestarts, OrdinaryRestarts;
  }

  /**
   Three accepted configurations whose first crash leaves the runtime offline: a longest backoff below the first one,
   one beyond the safe integers, and one without end.
   */
  lemma AcceptedConfigurationCanStall(max: Number)
    requires max in {Finite(30000.0), Finite(9007199254740992.0), PositiveInfinity}
    ensures var cfg := Config(Finite(60000.0), max, 31000, 60000, 10, 600000);
      var events := [Start(0), ChildExits(Some(1), false, 5)];
      Accepted(cfg) && Deliverable(cfg, INITIAL, events) && StatusOf(Run(cfg, INITIAL, events)) == Offline
  {
    var cfg := Config(Finite(60000.0), max, 31000, 60000, 10, 600000);
    var events := [Start(0), ChildExits(Some(1), false, 5)];
    assert !BackoffOrdered(cfg);
    assert events[1..] == [ChildExits(Some(1), false, 5)];
    assert events[1..][1..] == [];
    var started := Step(cfg, INITIAL, events[0]);
    BackoffBounds(cfg, 0);
    hide BoundedBackoffMs;
    assert Run(cfg, INITIAL, events) == Step(cfg, started, events[1]);
  }
}
