/**
 When an observation passes, fails or stays incomplete, read off the polls and the windows they show: which tests every
 poll has to meet, how the windows hang together, and at which poll the run stops.
 */
module ObservationVerdicts {
  import opened Prelude
  import opened Observation
  import opened ObservationCompleteness

  // ----- What a window adds -----

  /** An error or halt that failed. */
  predicate Fatal(e: Event) {
    e.Event? && (e.stage == "ERROR" || e.stage == "HALT") && e.status == "FAIL"
  }

  /** Events are dated; those from the start on are not in the future, well identified, of a known kind, not fatal. */
  predicate Acceptable(e: Event, startedAt: int, observedAt: int) {
    && e.Event? && e.occurredAt.Some?
    && (e.occurredAt.value >= startedAt ==>
          && e.occurredAt.value <= observedAt + 60000
          && 1 <= |e.id| <= 256 && 1 <= |e.cycleId| <= 256
          && e.stage in LEARNING_EVENT_STAGES && e.status in {"PASS", "SKIP", "FAIL"}
          && !Fatal(e))
  }

  predicate AllAcceptable(window: seq<Event>, startedAt: int, observedAt: int) {
    forall i :: 0 <= i < |window| ==> Acceptable(window[i], startedAt, observedAt)
  }

  function InScopeOf(window: seq<Event>, startedAt: int): set<Event> {
    set e | e in window && InScope(e, startedAt)
  }

  /** No id stands for two different events. */
  ghost predicate ConflictFree(events: set<Event>) {
    forall a, b :: a in events && b in events && IdOf(a) == IdOf(b) ==> a == b
  }

  /** The record holds exactly these events, none of them fatal, each under its id. */
  ghost predicate Records(st: State, events: set<Event>) {
    && (forall e :: e in events ==> !Fatal(e) && IsRecorded(e, st.events))
    && (forall id :: id in st.events ==> st.events[id] in events && IdOf(st.events[id]) == id)
  }

  lemma {:induction false} RecordsAreConflictFree(st: State, events: set<Event>)
    requires Records(st, events)
    ensures ConflictFree(events) && |st.events| == |events|
    decreases events
  {
    assert forall id :: id in st.events ==> st.events[id] in events;
    if events == {} {
      assert st.events.Keys == {};
    } else {
      var e :| e in events;
      var fewer := st.(events := st.events - {e.id});
      assert Records(fewer, events - {e}) by {
        assert forall a :: a in events - {e} ==> a.id != e.id;
      }
      RecordsAreConflictFree(fewer, events - {e});
      assert fewer.events.Keys == st.events.Keys - {e.id};
    }
  }

  /** What an admission does, whatever the record: the tests of one event, and the record with it. */
  predicate GoesThrough(step: Step) {
    step.failure.None? && !step.state.truncated
  }

  lemma OutsideGoesThrough(st: State, e: Event, startedAt: int, observedAt: int)
    requires !st.truncated && !InScope(e, startedAt)
    ensures GoesThrough(Admit(st, e, startedAt, observedAt)) <==> Acceptable(e, startedAt, observedAt)
    ensures GoesThrough(Admit(st, e, startedAt, observedAt)) ==> Admit(st, e, startedAt, observedAt).state == st
  {
  }

  lemma KnownGoesThrough(st: State, events: set<Event>, e: Event, startedAt: int, observedAt: int)
    requires Records(st, events) && !st.truncated && InScope(e, startedAt) && e.id in st.events
    ensures GoesThrough(Admit(st, e, startedAt, observedAt)) <==>
      Acceptable(e, startedAt, observedAt) && st.events[e.id] == e
    ensures GoesThrough(Admit(st, e, startedAt, observedAt)) ==> Admit(st, e, startedAt, observedAt).state == st
  {
    assert st.events[e.id] in events;
    assert !Fatal(st.events[e.id]);
  }

  lemma NewGoesThrough(st: State, e: Event, startedAt: int, observedAt: int)
    requires !st.truncated && InScope(e, startedAt) && e.id !in st.events
    ensures GoesThrough(Admit(st, e, startedAt, observedAt)) <==>
      Acceptable(e, startedAt, observedAt) && |st.events| < 5000
    ensures GoesThrough(Admit(st, e, startedAt, observedAt)) ==>
      Admit(st, e, startedAt, observedAt).state == WithEvent(st, e)
  {
  }

  lemma KnownAgrees(st: State, events: set<Event>, e: Event)
    requires Records(st, events) && e.Event? && e.id in st.events
    ensures st.events[e.id] == e <==> ConflictFree(events + {e})
    ensures st.events[e.id] == e ==> events + {e} == events
  {
    RecordsAreConflictFree(st, events);
    var known := st.events[e.id];
    assert known in events && IdOf(known) == e.id;
    if ConflictFree(events + {e}) {
      assert known in events + {e} && e in events + {e} && IdOf(e) == IdOf(known);
    }
    if known == e {
      assert events + {e} == events;
    }
  }

  lemma NewAgrees(st: State, events: set<Event>, e: Event)
    requires Records(st, events) && e.Event? && e.id !in st.events
    ensures e !in events && ConflictFree(events + {e}) && |events + {e}| == |st.events| + 1
  {
    RecordsAreConflictFree(st, events);
    assert e !in events;
    assert forall a :: a in events ==> IdOf(a) in st.events;
  }

  lemma NewIsRecorded(st: State, events: set<Event>, e: Event)
    requires Records(st, events) && e.Event? && e.id !in st.events && !Fatal(e)
    ensures Records(WithEvent(st, e), events + {e})
  {
  }

  /** One event goes through exactly when it is acceptable and, if in scope, agrees with the record and fits in. */
  lemma AdmitsIff(st: State, events: set<Event>, e: Event, startedAt: int, observedAt: int)
    requires Records(st, events) && !st.truncated && |events| <= 5000
    ensures var step := Admit(st, e, startedAt, observedAt);
      var more := events + InScopeOf([e], startedAt);
      && (GoesThrough(step) <==> Acceptable(e, startedAt, observedAt) && ConflictFree(more) && |more| <= 5000)
      && (GoesThrough(step) ==> Records(step.state, more))
  {
    hide Admit, GoesThrough, ConflictFree, Records, WithEvent, Acceptable, InScopeOf;
    OneInScope(e, startedAt);
    if InScope(e, startedAt) {
      AdmitsInScopeIff(st, events, e, startedAt, observedAt);
    } else {
      RecordsAreConflictFree(st, events);
      assert events + {} == events;
      OutsideGoesThrough(st, e, startedAt, observedAt);
    }
  }

  lemma OneInScope(e: Event, startedAt: int)
    ensures InScopeOf([e], startedAt) == if InScope(e, startedAt) then {e} else {}
  {
  }

  lemma AdmitsInScopeIff(st: State, events: set<Event>, e: Event, startedAt: int, observedAt: int)
    requires Records(st, events) && !st.truncated && |events| <= 5000 && InScope(e, startedAt)
    ensures var step := Admit(st, e, startedAt, observedAt);
      var more := events + {e};
      && (GoesThrough(step) <==> Acceptable(e, startedAt, observedAt) && ConflictFree(more) && |more| <= 5000)
      && (GoesThrough(step) ==> Records(step.state, more))
  {
    hide Admit, GoesThrough, ConflictFree, Records, WithEvent;
    if e.id in st.events {
      RecordsAreConflictFree(st, events);
      KnownGoesThrough(st, events, e, startedAt, observedAt);
      KnownAgrees(st, events, e);
    } else {
      NewGoesThrough(st, e, startedAt, observedAt);
      NewAgrees(st, events, e);
      if !Fatal(e) {
        NewIsRecorded(st, events, e);
      }
    }
  }

  lemma FewerAreFine(few: set<Event>, many: set<Event>)
    requires few <= many
    ensures ConflictFree(many) ==> ConflictFree(few)
    ensures |few| <= |many|
  {
    SubsetIsSmaller(few, many);
  }

  lemma {:induction false} SubsetIsSmaller<T>(a: set<T>, b: set<T>)
    requires a <= b
    ensures |a| <= |b|
  {
    if a != {} {
      var x :| x in a;
      SubsetIsSmaller(a - {x}, b - {x});
    }
  }

  lemma ScopeSplits(first: Event, rest: seq<Event>, startedAt: int)
    ensures InScopeOf([first] + rest, startedAt) == InScopeOf([first], startedAt) + InScopeOf(rest, startedAt)
  {
  }

  /** A whole window goes through exactly when all its events are acceptable and agree, and the record can hold them. */
  lemma {:induction false} AdmitsAllIff(
    st: State, events: set<Event>, window: seq<Event>, startedAt: int, observedAt: int)
    requires Records(st, events) && !st.truncated && |events| <= 5000
    ensures var step := AdmitAll(st, window, startedAt, observedAt);
      var more := events + InScopeOf(window, startedAt);
      && (GoesThrough(step) <==>
            AllAcceptable(window, startedAt, observedAt) && ConflictFree(more) && |more| <= 5000)
      && (GoesThrough(step) ==> Records(step.state, more))
    decreases |window|
  {
    hide Records, Admit, AllAcceptable, ConflictFree, InScopeOf;
    if |window| == 0 {
      NothingInScope(startedAt, observedAt);
      assert events + {} == events && window == [];
      RecordsAreConflictFree(st, events);
    } else {
      var first := Admit(st, window[0], startedAt, observedAt);
      var some := events + InScopeOf([window[0]], startedAt);
      var more := events + InScopeOf(window, startedAt);
      assert window == [window[0]] + window[1..];
      ScopeSplits(window[0], window[1..], startedAt);
      assert more == some + InScopeOf(window[1..], startedAt);
      AdmitsIff(st, events, window[0], startedAt, observedAt);
      FewerAreFine(some, more);
      AllButFirst(window, startedAt, observedAt);
      if GoesThrough(first) {
        AdmitsAllIff(first.state, some, window[1..], startedAt, observedAt);
      } else if first.failure.None? {
        AdmitAllTruncated(first.state, window[1..], startedAt, observedAt);
      }
    }
  }

  lemma NothingInScope(startedAt: int, observedAt: int)
    ensures InScopeOf([], startedAt) == {} && AllAcceptable([], startedAt, observedAt)
  {
  }

  lemma AllButFirst(window: seq<Event>, startedAt: int, observedAt: int)
    requires |window| > 0
    ensures AllAcceptable(window, startedAt, observedAt) <==>
      Acceptable(window[0], startedAt, observedAt) && AllAcceptable(window[1..], startedAt, observedAt)
  {
    hide Acceptable;
    assert forall i :: 0 < i < |window| ==> window[i] == window[1..][i - 1];
  }

  lemma AdmitAllTruncated(st: State, window: seq<Event>, startedAt: int, observedAt: int)
    requires st.truncated
    ensures AdmitAll(st, window, startedAt, observedAt).state.truncated
  {
    AdmitAllKeeps(st, window, startedAt, observedAt);
  }

  // ----- Conditions on the polls -----

  /** The window a poll shows, if it shows one. */
  function WindowOf(p: Poll): seq<Event> {
    if p.response.Snapshot? then p.response.window else []
  }

  /** The window before poll `k`. */
  function WindowBefore(initialWindow: seq<Event>, polls: seq<Poll>, k: nat): seq<Event>
    requires k <= |polls|
  {
    if k == 0 then initialWindow else WindowOf(polls[k - 1])
  }

  /** Both windows are in order and the newest event of the first is in the second. */
  ghost predicate Overlap(cmp: Collation, earlier: seq<Event>, later: seq<Event>) {
    && ValidOrder(cmp, earlier) && ValidOrder(cmp, later)
    && |earlier| > 0 && exists i :: 0 <= i < |later| && IdOf(later[i]) == IdOf(earlier[0])
  }

  /** Next to a full window, of 250 events, windows overlap. */
  ghost predicate HangsTogether(cmp: Collation, earlier: seq<Event>, later: seq<Event>) {
    |earlier| >= 250 || |later| >= 250 ==> Overlap(cmp, earlier, later)
  }

  /** The events in scope that the first `n` polls show. */
  function Shown(polls: seq<Poll>, n: nat, startedAt: int): set<Event>
    requires n <= |polls|
  {
    if n == 0 then {}
    else Shown(polls, n - 1, startedAt) + InScopeOf(WindowOf(polls[n - 1]), startedAt)
  }

  /** The cycles with a decision among the events. */
  function DecidedCycles(events: set<Event>): set<string> {
    set e | e in events && e.Event? && e.stage == "DECISION" :: e.cycleId
  }

  /** The poll is in time, the runtime is alive before and after, and the snapshot and all it shows are acceptable. */
  predicate CleanPoll(cfg: Config, p: Poll) {
    && p.elapsedBefore < cfg.maximumDuration && p.elapsedAfter <= cfg.maximumDuration
    && p.processFailure.None? && p.exited.None?
    && p.response.Snapshot? && p.response.snapshotFailure.None? && p.response.ordersFailure.None?
    && AllAcceptable(p.response.window, cfg.startedAt, p.observedAt)
  }

  /** All polls up to number `n` are clean, their windows hang together, and what they show agrees and can be held. */
  ghost predicate CleanUpTo(cmp: Collation, cfg: Config, initialWindow: seq<Event>, polls: seq<Poll>, n: nat)
    requires n <= |polls|
  {
    && (forall k :: 0 <= k < n ==>
          CleanPoll(cfg, polls[k]) && HangsTogether(cmp, WindowBefore(initialWindow, polls, k), WindowOf(polls[k])))
    && ConflictFree(Shown(polls, n, cfg.startedAt)) && |Shown(polls, n, cfg.startedAt)| <= 5000
  }

  /** After poll `k` both the minimum duration and the minimum number of decided cycles are reached. */
  predicate ReachesMinimum(cfg: Config, polls: seq<Poll>, k: nat)
    requires k < |polls|
  {
    && polls[k].elapsedAfter >= cfg.minimumDuration
    && |DecidedCycles(Shown(polls, k + 1, cfg.startedAt))| >= cfg.minimumDecisionCycles
  }

  /** The run passes at poll `n`: everything is clean up to it, and it is the first to reach the minimum, in time. */
  ghost predicate PassesAt(cmp: Collation, cfg: Config, initialWindow: seq<Event>, polls: seq<Poll>, n: nat) {
    && n < |polls| && CleanUpTo(cmp, cfg, initialWindow, polls, n + 1) && ReachesMinimum(cfg, polls, n)
    && forall k :: 0 <= k < n ==> polls[k].elapsedAfter < cfg.maximumDuration && !ReachesMinimum(cfg, polls, k)
  }

  // ----- The state after clean polls -----

  ghost predicate StateAfter(
    cmp: Collation, cfg: Config, initialWindow: seq<Event>, polls: seq<Poll>, k: nat, st: State)
    requires k <= |polls|
  {
    var last := WindowBefore(initialWindow, polls, k);
    && Records(st, Shown(polls, k, cfg.startedAt)) && CyclesMatch(st) && !st.truncated
    && st.previousValid == ValidOrder(cmp, last)
    && st.previousNewest == (if ValidOrder(cmp, last) then NewestId(last) else None)
    && st.previousFull == (|last| >= 250)
  }

  lemma CyclesAreDecided(st: State, events: set<Event>)
    requires Records(st, events) && CyclesMatch(st)
    ensures st.decisionCycles == DecidedCycles(events)
  {
    forall c | c in st.decisionCycles ensures c in DecidedCycles(events) {
      var id :| id in st.events && DecidesCycle(st.events[id], c);
      assert st.events[id] in events;
    }
    forall c | c in DecidedCycles(events) ensures c in st.decisionCycles {
      var e :| e in events && e.Event? && e.stage == "DECISION" && e.cycleId == c;
      assert DecidesCycle(st.events[e.id], c);
    }
  }

  /** The anchor decides as the two windows do. */
  lemma RollsIff(cmp: Collation, st: State, earlier: seq<Event>, later: seq<Event>)
    requires !st.truncated && st.previousValid == ValidOrder(cmp, earlier) && st.previousFull == (|earlier| >= 250)
    requires st.previousNewest == if ValidOrder(cmp, earlier) then NewestId(earlier) else None
    ensures !Roll(cmp, st, later).truncated <==> HangsTogether(cmp, earlier, later)
  {
    hide ValidOrder;
    assert Continuous(cmp, st, later) <==> Overlap(cmp, earlier, later);
  }

  lemma RollKeepsRecord(cmp: Collation, st: State, events: set<Event>, window: seq<Event>)
    requires Records(st, events) && CyclesMatch(st)
    ensures Records(Roll(cmp, st, window), events) && CyclesMatch(Roll(cmp, st, window))
  {
    hide ValidOrder, Continuous;
  }

  /** One collected poll keeps the record whole exactly when its window is fine, and then leaves the state described. */
  lemma CollectsIff(cmp: Collation, cfg: Config, initialWindow: seq<Event>, polls: seq<Poll>, k: nat, st: State)
    requires k < |polls| && polls[k].response.Snapshot?
    requires StateAfter(cmp, cfg, initialWindow, polls, k, st) && |Shown(polls, k, cfg.startedAt)| <= 5000
    ensures var p := polls[k];
      var step := Collect(cmp, cfg, st, p.response, p.observedAt);
      && (GoesThrough(step) <==>
            && p.response.ordersFailure.None? && AllAcceptable(p.response.window, cfg.startedAt, p.observedAt)
            && HangsTogether(cmp, WindowBefore(initialWindow, polls, k), p.response.window)
            && ConflictFree(Shown(polls, k + 1, cfg.startedAt)) && |Shown(polls, k + 1, cfg.startedAt)| <= 5000)
      && (GoesThrough(step) ==> StateAfter(cmp, cfg, initialWindow, polls, k + 1, step.state))
  {
    hide Records, CyclesMatch, AdmitAll, AllAcceptable, ConflictFree, InScopeOf, ValidOrder, Continuous, HangsTogether;
    var p := polls[k];
    var window := p.response.window;
    var before := Shown(polls, k, cfg.startedAt);
    var rolled := Roll(cmp, st, window);
    RollsIff(cmp, st, WindowBefore(initialWindow, polls, k), window);
    RollKeepsRecord(cmp, st, before, window);
    AdmitAllKeeps(rolled, window, cfg.startedAt, p.observedAt);
    if !rolled.truncated {
      AdmitsAllIff(rolled, before, window, cfg.startedAt, p.observedAt);
    }
  }

  lemma {:induction false} ShownGrows(polls: seq<Poll>, k: nat, n: nat, startedAt: int)
    requires k <= n <= |polls|
    ensures Shown(polls, k, startedAt) <= Shown(polls, n, startedAt)
    decreases n
  {
    hide InScopeOf;
    if k < n {
      ShownGrows(polls, k, n - 1, startedAt);
    }
  }

  // ----- When a run passes -----

  lemma CleanGrows(cmp: Collation, cfg: Config, initialWindow: seq<Event>, polls: seq<Poll>, k: nat)
    requires k < |polls| && CleanUpTo(cmp, cfg, initialWindow, polls, k)
    ensures CleanUpTo(cmp, cfg, initialWindow, polls, k + 1) <==>
      && CleanPoll(cfg, polls[k]) && HangsTogether(cmp, WindowBefore(initialWindow, polls, k), WindowOf(polls[k]))
      && ConflictFree(Shown(polls, k + 1, cfg.startedAt)) && |Shown(polls, k + 1, cfg.startedAt)| <= 5000
  {
    hide CleanPoll, HangsTogether, Shown, ConflictFree;
  }

  lemma CleanBefore(cmp: Collation, cfg: Config, initialWindow: seq<Event>, polls: seq<Poll>, k: nat, n: nat)
    requires k <= n <= |polls| && CleanUpTo(cmp, cfg, initialWindow, polls, n)
    ensures CleanUpTo(cmp, cfg, initialWindow, polls, k)
  {
    hide CleanPoll, HangsTogether;
    ShownGrows(polls, k, n, cfg.startedAt);
    FewerAreFine(Shown(polls, k, cfg.startedAt), Shown(polls, n, cfg.startedAt));
  }

  /** A poll that is out of time, dead, refused, or does not go through does not let a run pass. */
  lemma UncleanNeverPasses(cmp: Collation, cfg: Config, st: State, polls: seq<Poll>, collected: nat)
    requires |polls| > 0
    requires var p := polls[0];
      !(&& p.elapsedBefore < cfg.maximumDuration && p.elapsedAfter <= cfg.maximumDuration
        && p.processFailure.None? && p.exited.None? && p.response.Snapshot? && p.response.snapshotFailure.None?
        && GoesThrough(Collect(cmp, cfg, st, p.response, p.observedAt)))
    ensures StatusOf(Observe(cmp, cfg, st, polls, collected)) != PASS
  {
    hide Collect;
    var p := polls[0];
    if p.response.Snapshot? {
      var step := Collect(cmp, cfg, st, p.response, p.observedAt);
      if step.state.truncated {
        TruncationStays(cmp, cfg, step.state, polls[1..], collected + 1);
      }
    }
  }

  /** A poll that goes through ends the run with a pass, ends it for lack of time, or leaves it to the next. */
  lemma CleanGoesOn(cmp: Collation, cfg: Config, st: State, polls: seq<Poll>, collected: nat)
    requires |polls| > 0
    requires var p := polls[0];
      && p.elapsedBefore < cfg.maximumDuration && p.elapsedAfter <= cfg.maximumDuration
      && p.processFailure.None? && p.exited.None? && p.response.Snapshot? && p.response.snapshotFailure.None?
      && GoesThrough(Collect(cmp, cfg, st, p.response, p.observedAt))
    ensures var p := polls[0];
      var after := Collect(cmp, cfg, st, p.response, p.observedAt).state;
      var o := Observe(cmp, cfg, st, polls, collected);
      if p.elapsedAfter >= cfg.minimumDuration && |after.decisionCycles| >= cfg.minimumDecisionCycles then
        StatusOf(o) == PASS && o.collected == collected + 1
      else if p.elapsedAfter >= cfg.maximumDuration then StatusOf(o) == INCOMPLETE
      else o == Observe(cmp, cfg, after, polls[1..], collected + 1)
  {
    hide Collect;
  }

  /** The run still goes on at poll `k`. */
  ghost predicate UndecidedAt(
    cmp: Collation, cfg: Config, initialWindow: seq<Event>, polls: seq<Poll>, k: nat, st: State)
  {
    && k <= |polls| && CleanUpTo(cmp, cfg, initialWindow, polls, k)
    && StateAfter(cmp, cfg, initialWindow, polls, k, st)
    && forall j :: 0 <= j < k ==> polls[j].elapsedAfter < cfg.maximumDuration && !ReachesMinimum(cfg, polls, j)
  }

  lemma CollectsClean(cmp: Collation, cfg: Config, initialWindow: seq<Event>, polls: seq<Poll>, k: nat, st: State)
    requires k < |polls| && UndecidedAt(cmp, cfg, initialWindow, polls, k, st)
    ensures var p := polls[k];
      CleanUpTo(cmp, cfg, initialWindow, polls, k + 1) <==>
        (&& p.elapsedBefore < cfg.maximumDuration && p.elapsedAfter <= cfg.maximumDuration
         && p.processFailure.None? && p.exited.None? && p.response.Snapshot? && p.response.snapshotFailure.None?
         && GoesThrough(Collect(cmp, cfg, st, p.response, p.observedAt)))
    ensures CleanUpTo(cmp, cfg, initialWindow, polls, k + 1) ==>
      var after := Collect(cmp, cfg, st, polls[k].response, polls[k].observedAt).state;
      && StateAfter(cmp, cfg, initialWindow, polls, k + 1, after)
      && after.decisionCycles == DecidedCycles(Shown(polls, k + 1, cfg.startedAt))
  {
    hide Collect, AllAcceptable, HangsTogether, Shown, ConflictFree, DecidedCycles, GoesThrough, ReachesMinimum,
      Records,
      CyclesMatch, ValidOrder;
    CleanGrows(cmp, cfg, initialWindow, polls, k);
    if polls[k].response.Snapshot? {
      CollectsIff(cmp, cfg, initialWindow, polls, k, st);
      if CleanUpTo(cmp, cfg, initialWindow, polls, k + 1) {
        CyclesAreDecided(Collect(cmp, cfg, st, polls[k].response, polls[k].observedAt).state,
          Shown(polls, k + 1, cfg.startedAt));
      }
    }
  }

  lemma {:induction false} PassesFromIff(
    cmp: Collation, cfg: Config, initialWindow: seq<Event>, polls: seq<Poll>, k: nat, st: State)
    requires UndecidedAt(cmp, cfg, initialWindow, polls, k, st)
    ensures var o := Observe(cmp, cfg, st, polls[k..], k);
      && (StatusOf(o) == PASS <==> exists n :: k <= n && PassesAt(cmp, cfg, initialWindow, polls, n))
      && (StatusOf(o) == PASS ==> o.collected > k && PassesAt(cmp, cfg, initialWindow, polls, o.collected - 1))
    decreases |polls| - k
  {
    hide CleanUpTo, StateAfter, Collect, Shown, DecidedCycles, Observe, GoesThrough;
    if k == |polls| {
      NoPollsNoPass(cmp, cfg, st, k);
      assert polls[k..] == [];
    } else {
      var rest := polls[k..];
      assert rest[0] == polls[k] && rest[1..] == polls[k + 1..];
      CollectsClean(cmp, cfg, initialWindow, polls, k, st);
      if CleanUpTo(cmp, cfg, initialWindow, polls, k + 1) {
        CleanGoesOn(cmp, cfg, st, rest, k);
        var after := Collect(cmp, cfg, st, polls[k].response, polls[k].observedAt).state;
        if ReachesMinimum(cfg, polls, k) {
          assert PassesAt(cmp, cfg, initialWindow, polls, k);
        } else if polls[k].elapsedAfter < cfg.maximumDuration {
          PassesFromIff(cmp, cfg, initialWindow, polls, k + 1, after);
        }
      } else {
        UncleanNeverPasses(cmp, cfg, st, rest, k);
        forall n | k <= n && PassesAt(cmp, cfg, initialWindow, polls, n) ensures false {
          CleanBefore(cmp, cfg, initialWindow, polls, k + 1, n + 1);
        }
      }
    }
  }

  lemma NoPollsNoPass(cmp: Collation, cfg: Config, st: State, collected: nat)
    ensures StatusOf(Observe(cmp, cfg, st, [], collected)) != PASS
  {
  }

  lemma NothingObserved(cmp: Collation, cfg: Config, initialWindow: seq<Event>, polls: seq<Poll>)
    ensures UndecidedAt(cmp, cfg, initialWindow, polls, 0, Initial(cmp, initialWindow))
  {
    hide ValidOrder;
  }

  /**
   When a run passes, for every initial window and every script of polls: exactly when there is a poll such that all
   polls up to it are in time, alive and clean, their windows hang together and agree, and it is the first after which
   the minimum duration has passed and enough cycles are decided, the run not having used up its time before. That
   poll is the last one collected.
   */
  lemma PassesIff(cmp: Collation, cfg: Config, initialWindow: seq<Event>, polls: seq<Poll>)
    ensures var o := Observe(cmp, cfg, Initial(cmp, initialWindow), polls, 0);
      && (StatusOf(o) == PASS <==> exists n :: PassesAt(cmp, cfg, initialWindow, polls, n))
      && (StatusOf(o) == PASS ==> o.collected > 0 && PassesAt(cmp, cfg, initialWindow, polls, o.collected - 1))
  {
    hide Observe, PassesAt, UndecidedAt, Initial;
    NothingObserved(cmp, cfg, initialWindow, polls);
    PassesFromIff(cmp, cfg, initialWindow, polls, 0, Initial(cmp, initialWindow));
    assert polls[0..] == polls;
  }

  // ----- When a run fails or reaches its minimum -----

  /** The state after the first `k` polls have been collected. */
  ghost function StateAt(cmp: Collation, cfg: Config, st: State, polls: seq<Poll>, k: nat): State
    requires k <= |polls|
    decreases k
  {
    if k == 0 then st
    else if polls[0].response.Snapshot? then
      StateAt(cmp, cfg, Collect(cmp, cfg, st, polls[0].response, polls[0].observedAt).state, polls[1..], k - 1)
    else StateAt(cmp, cfg, st, polls[1..], k - 1)
  }

  /** The time of a poll is within the budget, and the runtime is alive before it. */
  predicate Begins(cfg: Config, p: Poll) {
    p.elapsedBefore < cfg.maximumDuration && p.processFailure.None?
  }

  /** The poll is collected without any failure, in time. */
  ghost predicate Succeeds(cmp: Collation, cfg: Config, st: State, p: Poll) {
    && Begins(cfg, p) && p.elapsedAfter <= cfg.maximumDuration
    && p.response.Snapshot? && p.response.snapshotFailure.None? && p.exited.None?
    && Collect(cmp, cfg, st, p.response, p.observedAt).failure.None?
  }

  /**
   The poll shows a failure: of the process, of the read, of the snapshot or what it holds, or of the process after.
   */
  ghost predicate ShowsFailure(cmp: Collation, cfg: Config, st: State, p: Poll) {
    && p.elapsedBefore < cfg.maximumDuration
    && (|| p.processFailure.Some?
        || p.response.Refused?
        || (p.elapsedAfter <= cfg.maximumDuration && !Succeeds(cmp, cfg, st, p)))
  }

  /** After the poll both minimums are reached. */
  ghost predicate EnoughAfter(cmp: Collation, cfg: Config, st: State, p: Poll) {
    && p.response.Snapshot? && p.elapsedAfter >= cfg.minimumDuration
    && |Collect(cmp, cfg, st, p.response, p.observedAt).state.decisionCycles| >= cfg.minimumDecisionCycles
  }

  /** Polling goes on after each of the first `n` polls. */
  ghost predicate GoesOnTo(cmp: Collation, cfg: Config, st: State, polls: seq<Poll>, n: nat) {
    n <= |polls| && forall k :: 0 <= k < n ==>
      var before := StateAt(cmp, cfg, st, polls, k);
      && Succeeds(cmp, cfg, before, polls[k]) && !EnoughAfter(cmp, cfg, before, polls[k])
      && polls[k].elapsedAfter < cfg.maximumDuration
  }

  ghost predicate FailsAt(cmp: Collation, cfg: Config, st: State, polls: seq<Poll>, n: nat) {
    && GoesOnTo(cmp, cfg, st, polls, n) && n < |polls|
    && ShowsFailure(cmp, cfg, StateAt(cmp, cfg, st, polls, n), polls[n])
  }

  ghost predicate EnoughAt(cmp: Collation, cfg: Config, st: State, polls: seq<Poll>, n: nat) {
    && GoesOnTo(cmp, cfg, st, polls, n) && n < |polls|
    && var before := StateAt(cmp, cfg, st, polls, n);
       Succeeds(cmp, cfg, before, polls[n]) && EnoughAfter(cmp, cfg, before, polls[n])
  }

  lemma GoesOnNowhere(cmp: Collation, cfg: Config, st: State, polls: seq<Poll>, n: nat)
    requires n > 0 && n <= |polls|
    ensures GoesOnTo(cmp, cfg, st, polls, n) ==>
      && Succeeds(cmp, cfg, st, polls[0]) && !EnoughAfter(cmp, cfg, st, polls[0])
      && polls[0].elapsedAfter < cfg.maximumDuration
  {
    hide Succeeds, EnoughAfter;
    assert StateAt(cmp, cfg, st, polls, 0) == st;
  }

  lemma GoesOnFurther(cmp: Collation, cfg: Config, st: State, polls: seq<Poll>, n: nat)
    requires |polls| > 0 && Succeeds(cmp, cfg, st, polls[0]) && !EnoughAfter(cmp, cfg, st, polls[0])
    requires polls[0].elapsedAfter < cfg.maximumDuration && n < |polls|
    ensures var after := Collect(cmp, cfg, st, polls[0].response, polls[0].observedAt).state;
      && (GoesOnTo(cmp, cfg, st, polls, n + 1) <==> GoesOnTo(cmp, cfg, after, polls[1..], n))
      && StateAt(cmp, cfg, st, polls, n + 1) == StateAt(cmp, cfg, after, polls[1..], n)
  {
    hide Collect, EnoughAfter;
    var after := Collect(cmp, cfg, st, polls[0].response, polls[0].observedAt).state;
    assert StateAt(cmp, cfg, st, polls, 0) == st;
    assert forall k :: 0 <= k < n ==>
      StateAt(cmp, cfg, st, polls, k + 1) == StateAt(cmp, cfg, after, polls[1..], k) && polls[k + 1] == polls[1..][k];
    hide Succeeds;
    if GoesOnTo(cmp, cfg, st, polls, n + 1) {
      forall k | 0 <= k < n
        ensures Succeeds(cmp, cfg, StateAt(cmp, cfg, after, polls[1..], k), polls[1..][k])
        ensures !EnoughAfter(cmp, cfg, StateAt(cmp, cfg, after, polls[1..], k), polls[1..][k])
        ensures polls[1..][k].elapsedAfter < cfg.maximumDuration
      {
        assert Succeeds(cmp, cfg, StateAt(cmp, cfg, st, polls, k + 1), polls[k + 1]);
      }
    }
    if GoesOnTo(cmp, cfg, after, polls[1..], n) {
      forall k | 0 <= k < n + 1
        ensures Succeeds(cmp, cfg, StateAt(cmp, cfg, st, polls, k), polls[k])
        ensures !EnoughAfter(cmp, cfg, StateAt(cmp, cfg, st, polls, k), polls[k])
        ensures polls[k].elapsedAfter < cfg.maximumDuration
      {
        if k > 0 {
          assert Succeeds(cmp, cfg, StateAt(cmp, cfg, after, polls[1..], k - 1), polls[1..][k - 1]);
        }
      }
    }
  }

  /** What the first poll decides. */
  lemma FirstPollDecides(cmp: Collation, cfg: Config, st: State, polls: seq<Poll>, collected: nat)
    requires |polls| > 0
    ensures var p := polls[0];
      var o := Observe(cmp, cfg, st, polls, collected);
      if ShowsFailure(cmp, cfg, st, p) then o.failure.Some? && o.stopReason != MinimumReached
      else if !Succeeds(cmp, cfg, st, p) then o.failure.None? && o.stopReason == BudgetExhausted
      else if EnoughAfter(cmp, cfg, st, p) then
        o.failure.None? && o.stopReason == MinimumReached && o.collected == collected + 1
      else if p.elapsedAfter >= cfg.maximumDuration then o.failure.None? && o.stopReason == BudgetExhausted
      else o == Observe(cmp, cfg, Collect(cmp, cfg, st, p.response, p.observedAt).state, polls[1..], collected + 1)
  {
    hide Collect;
  }

  lemma {:induction false} FailsIff(cmp: Collation, cfg: Config, st: State, polls: seq<Poll>, collected: nat)
    ensures var o := Observe(cmp, cfg, st, polls, collected);
      && (StatusOf(o) == FAIL <==> exists n :: FailsAt(cmp, cfg, st, polls, n))
      && (o.stopReason == MinimumReached <==> exists n :: EnoughAt(cmp, cfg, st, polls, n))
      && (o.stopReason == MinimumReached ==>
            o.collected > collected && EnoughAt(cmp, cfg, st, polls, o.collected - collected - 1))
    decreases |polls|
  {
    hide Collect, Observe, Succeeds, ShowsFailure, EnoughAfter, GoesOnTo;
    if |polls| == 0 {
      NoPollsNoFailure(cmp, cfg, st, collected);
    } else {
      FirstPollDecides(cmp, cfg, st, polls, collected);
      GoesOnToNone(cmp, cfg, st, polls);
      assert StateAt(cmp, cfg, st, polls, 0) == st;
      FailureIsNoSuccess(cmp, cfg, st, polls[0]);
      if Succeeds(cmp, cfg, st, polls[0]) && !EnoughAfter(cmp, cfg, st, polls[0])
        && polls[0].elapsedAfter < cfg.maximumDuration
      {
        LaterPollsDecide(cmp, cfg, st, polls, collected);
      } else {
        forall n | 0 < n <= |polls| ensures !GoesOnTo(cmp, cfg, st, polls, n) {
          GoesOnNowhere(cmp, cfg, st, polls, n);
        }
        assert FailsAt(cmp, cfg, st, polls, 0) <==> ShowsFailure(cmp, cfg, st, polls[0]);
        assert EnoughAt(cmp, cfg, st, polls, 0) <==>
          Succeeds(cmp, cfg, st, polls[0]) && EnoughAfter(cmp, cfg, st, polls[0]);
      }
    }
  }

  lemma {:induction false} LaterPollsDecide(cmp: Collation, cfg: Config, st: State, polls: seq<Poll>, collected: nat)
    requires |polls| > 0 && Succeeds(cmp, cfg, st, polls[0]) && !EnoughAfter(cmp, cfg, st, polls[0])
    requires polls[0].elapsedAfter < cfg.maximumDuration
    ensures var o := Observe(cmp, cfg, st, polls, collected);
      && (StatusOf(o) == FAIL <==> exists n :: FailsAt(cmp, cfg, st, polls, n))
      && (o.stopReason == MinimumReached <==> exists n :: EnoughAt(cmp, cfg, st, polls, n))
      && (o.stopReason == MinimumReached ==>
            o.collected > collected && EnoughAt(cmp, cfg, st, polls, o.collected - collected - 1))
    decreases |polls|, 0
  {
    hide Collect, Observe, Succeeds, ShowsFailure, EnoughAfter, GoesOnTo;
    var p := polls[0];
    SuccessIsASnapshot(cmp, cfg, st, p);
    var after := Collect(cmp, cfg, st, p.response, p.observedAt).state;
    FirstPollDecides(cmp, cfg, st, polls, collected);
    FailureIsNoSuccess(cmp, cfg, st, p);
    assert StateAt(cmp, cfg, st, polls, 0) == st;
    FailsIff(cmp, cfg, after, polls[1..], collected + 1);
    forall n | 0 <= n < |polls|
      ensures n > 0 ==> (FailsAt(cmp, cfg, st, polls, n) <==> FailsAt(cmp, cfg, after, polls[1..], n - 1))
      ensures n > 0 ==> (EnoughAt(cmp, cfg, st, polls, n) <==> EnoughAt(cmp, cfg, after, polls[1..], n - 1))
    {
      if n > 0 {
        GoesOnFurther(cmp, cfg, st, polls, n - 1);
      }
    }
    assert !FailsAt(cmp, cfg, st, polls, 0) && !EnoughAt(cmp, cfg, st, polls, 0);
    if n: nat :| FailsAt(cmp, cfg, after, polls[1..], n) {
      assert FailsAt(cmp, cfg, st, polls, n + 1);
    }
    if n: nat :| EnoughAt(cmp, cfg, after, polls[1..], n) {
      assert EnoughAt(cmp, cfg, st, polls, n + 1);
    }
  }

  lemma SuccessIsASnapshot(cmp: Collation, cfg: Config, st: State, p: Poll)
    requires Succeeds(cmp, cfg, st, p)
    ensures p.response.Snapshot?
  {
  }

  lemma FailureIsNoSuccess(cmp: Collation, cfg: Config, st: State, p: Poll)
    ensures !(ShowsFailure(cmp, cfg, st, p) && Succeeds(cmp, cfg, st, p))
  {
    hide Collect;
  }

  lemma GoesOnToNone(cmp: Collation, cfg: Config, st: State, polls: seq<Poll>)
    ensures GoesOnTo(cmp, cfg, st, polls, 0)
  {
  }

  lemma NoPollsNoFailure(cmp: Collation, cfg: Config, st: State, collected: nat)
    ensures var o := Observe(cmp, cfg, st, [], collected); StatusOf(o) == INCOMPLETE && o.stopReason == BudgetExhausted
  {
  }

  /** The reason and the text a failing poll ends the run with; what went wrong first is what is told. */
  ghost predicate Tells(cmp: Collation, cfg: Config, st: State, p: Poll, o: Outcome) {
    if p.processFailure.Some? then o.stopReason == RuntimeFailure && o.failure == p.processFailure
    else if p.response.Refused? then
      && o.failure == Some(p.response.failure)
      && o.stopReason == if p.elapsedAfter > cfg.maximumDuration then BudgetExhausted else ReadFailure
    else if p.response.Unreadable? then o.stopReason == EvidenceFailure && o.failure == Some(p.response.failure)
    else
      var collected := Collect(cmp, cfg, st, p.response, p.observedAt).failure;
      if p.response.snapshotFailure.Some? || collected.Some? then
        && o.stopReason == EvidenceFailure
        && o.failure == if p.response.snapshotFailure.Some? then p.response.snapshotFailure else collected
      else o.stopReason == RuntimeFailure && o.failure == p.exited
  }

  lemma FirstFailureTells(cmp: Collation, cfg: Config, st: State, polls: seq<Poll>, collected: nat)
    requires |polls| > 0 && ShowsFailure(cmp, cfg, st, polls[0])
    ensures Tells(cmp, cfg, st, polls[0], Observe(cmp, cfg, st, polls, collected))
  {
    hide Collect;
  }

  /** A failing run ends with the reason and the text of the poll it fails at. */
  lemma {:induction false} FailureIsOfThePoll(
    cmp: Collation, cfg: Config, st: State, polls: seq<Poll>, collected: nat, n: nat)
    requires FailsAt(cmp, cfg, st, polls, n)
    ensures Tells(cmp, cfg, StateAt(cmp, cfg, st, polls, n), polls[n], Observe(cmp, cfg, st, polls, collected))
    decreases n
  {
    hide Collect, Observe, Succeeds, ShowsFailure, EnoughAfter, GoesOnTo, Tells;
    if n == 0 {
      FirstFailureTells(cmp, cfg, st, polls, collected);
    } else {
      GoesOnNowhere(cmp, cfg, st, polls, n);
      SuccessIsASnapshot(cmp, cfg, st, polls[0]);
      FailureIsNoSuccess(cmp, cfg, st, polls[0]);
      FirstPollDecides(cmp, cfg, st, polls, collected);
      GoesOnFurther(cmp, cfg, st, polls, n - 1);
      var after := Collect(cmp, cfg, st, polls[0].response, polls[0].observedAt).state;
      FailureIsOfThePoll(cmp, cfg, after, polls[1..], collected + 1, n - 1);
    }
  }

  /** A run that stops for having reached its minimums did so in time, and no earlier poll had reached both. */
  lemma MinimumIsReached(cmp: Collation, cfg: Config, st: State, polls: seq<Poll>)
    requires Observe(cmp, cfg, st, polls, 0).stopReason == MinimumReached
    ensures var n := Observe(cmp, cfg, st, polls, 0).collected - 1;
      && 0 <= n < |polls|
      && cfg.minimumDuration <= polls[n].elapsedAfter <= cfg.maximumDuration
      && forall k :: 0 <= k < n ==>
           && polls[k].elapsedAfter < cfg.maximumDuration
           && !EnoughAfter(cmp, cfg, StateAt(cmp, cfg, st, polls, k), polls[k])
  {
    hide Observe, Collect;
    FailsIff(cmp, cfg, st, polls, 0);
  }
}
