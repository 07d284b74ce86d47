/**
 The bounded observation of the automatic PAPER runtime (scripts/actual-paper-runtime-e2e.js).

 A poller reads a newest-first window over a growing event log, keeps only the newest id of the previous window
 (the anchor), and decides whether events may have been missed. This module is the observer itself: a specification over
 values, and the class that updates its fields step by step. What a PASS proves is in ObservationCompleteness.
 */
module Observation {
  import opened Prelude

  const WINDOW_CAP := 250
  const MAXIMUM_EVENTS := 5000
  const MAX_ID_LENGTH := 256
  const FUTURE_TOLERANCE_MS := 60000

  const LEARNING_EVENT_STAGES := {
    "MARKET_DATA", "SIGNAL", "CANDIDATE", "DECISION", "PERMISSION", "RISK", "ORDER_INTENT", "FILL", "PNL",
    "LEARNING", "HALT", "ERROR", "IDEMPOTENCY", "PERIOD_OPEN", "PERIOD_REALIZED_PERSISTED", "PERIOD_REJECTED"
  }
  const EVENT_STATUSES := {"PASS", "SKIP", "FAIL"}

  /** `localeCompare` on ids: negative when the first id sorts first. */
  type Collation = (string, string) -> int

  /**
   One element of a projection. A missing or non-string id, cycle, stage or status is the empty string, which fails
   the same tests; `occurredAt` is None when it is not a timestamp; `details` stands for the remaining signed fields.
   Two events of one id have equal signatures exactly when they are equal, because the hash is taken to be injective.
   */
  datatype Event =
    | Malformed
    | Event(id: string, occurredAt: Option<int>, cycleId: string, stage: string, status: string, details: string)

  function IdOf(e: Event): string {
    if e.Malformed? then "" else e.id
  }

  predicate WellIdentified(text: string) {
    0 < |text| <= MAX_ID_LENGTH
  }

  predicate Orderable(e: Event) {
    e.Event? && WellIdentified(e.id) && e.occurredAt.Some?
  }

  // ----- Projection order -----

  /** `later` may directly precede `earlier` in a newest-first window. */
  predicate InOrder(cmp: Collation, later: Event, earlier: Event)
    requires Orderable(later) && Orderable(earlier)
  {
    && earlier.occurredAt.value <= later.occurredAt.value
    && (earlier.occurredAt.value == later.occurredAt.value ==> cmp(later.id, earlier.id) <= 0)
  }

  ghost predicate ValidOrder(cmp: Collation, window: seq<Event>) {
    && (forall i :: 0 <= i < |window| ==> Orderable(window[i]))
    && (forall i, j :: 0 <= i < j < |window| ==> window[i].id != window[j].id)
    && (forall i :: 0 < i < |window| ==> InOrder(cmp, window[i - 1], window[i]))
  }

  // ----- Observer state -----

  datatype State = State(
    events: map<string, Event>,
    decisionCycles: set<string>,
    previousValid: bool,
    previousNewest: Option<string>,
    previousFull: bool,
    capped: nat,
    anchored: nat,
    moved: nat,
    truncated: bool)

  function NewestId(window: seq<Event>): Option<string> {
    if |window| == 0 then None else Some(IdOf(window[0]))
  }

  ghost function Initial(cmp: Collation, window: seq<Event>): State {
    var valid := ValidOrder(cmp, window);
    State(map[], {}, valid, if valid then NewestId(window) else None, |window| >= WINDOW_CAP, 0, 0, 0, false)
  }

  ghost predicate Continuous(cmp: Collation, st: State, window: seq<Event>) {
    && st.previousValid
    && ValidOrder(cmp, window)
    && st.previousNewest.Some?
    && exists i :: 0 <= i < |window| && IdOf(window[i]) == st.previousNewest.value
  }

  /** The window bookkeeping that precedes the per-event work. */
  ghost function Roll(cmp: Collation, st: State, window: seq<Event>): State {
    var full := |window| >= WINDOW_CAP;
    var linked := Continuous(cmp, st, window);
    var valid := ValidOrder(cmp, window);
    st.(previousValid := valid,
    previousNewest := if valid then NewestId(window) else None,
    previousFull := full,
    capped := if full then st.capped + 1 else st.capped,
    anchored := if full && linked then st.anchored + 1 else st.anchored,
    moved := if full && linked && NewestId(window) != st.previousNewest then st.moved + 1 else st.moved,
    truncated := st.truncated || ((full || st.previousFull) && !linked))
  }

  datatype Step = Step(state: State, failure: Option<string>)

  predicate WellFormedEvent(e: Event) {
    && e.Event?
    && WellIdentified(e.id) && WellIdentified(e.cycleId)
    && e.stage in LEARNING_EVENT_STAGES && e.status in EVENT_STATUSES
  }

  function WithEvent(st: State, e: Event): State
    requires e.Event?
  {
    st.(events := st.events[e.id := e],
    decisionCycles := if e.stage == "DECISION" then st.decisionCycles + {e.cycleId} else st.decisionCycles)
  }

  /** One event of the window: skipped, admitted, or the reason the whole observation fails. */
  function Admit(st: State, e: Event, startedAt: int, observedAt: int): Step {
    if e.Malformed? then Step(st, Some("PAPER_LEARNING_EVENT_INVALID"))
    else if e.occurredAt.None? then Step(st, Some("PAPER_LEARNING_EVENT_TIME_INVALID"))
    else if e.occurredAt.value < startedAt then Step(st, None)
    else if e.occurredAt.value > observedAt + FUTURE_TOLERANCE_MS
      then Step(st, Some("PAPER_LEARNING_EVENT_TIME_IN_FUTURE"))
    else if !WellFormedEvent(e) then Step(st, Some("PAPER_LEARNING_EVENT_IDENTITY_INVALID"))
    else if e.id in st.events then
      Step(st, if st.events[e.id] != e then Some("PAPER_LEARNING_EVENT_ID_CONFLICT") else None)
    else if |st.events| >= MAXIMUM_EVENTS then Step(st.(truncated := true), None)
    else Step(WithEvent(st, e), if e.stage in {"ERROR", "HALT"} && e.status == "FAIL" then Some(e.details) else None)
  }

  function AdmitAll(st: State, window: seq<Event>, startedAt: int, observedAt: int): Step
    decreases |window|
  {
    if |window| == 0 then Step(st, None)
    else
      var first := Admit(st, window[0], startedAt, observedAt);
      if first.failure.Some? then first else AdmitAll(first.state, window[1..], startedAt, observedAt)
  }

  // ----- Polls -----

  /** What a read returned; `ordersFailure` is what the order and fill checks of the same snapshot report. */
  datatype Response =
    | Refused(failure: string)
    | Unreadable(failure: string)
    | Snapshot(window: seq<Event>, snapshotFailure: Option<string>, ordersFailure: Option<string>)

  datatype Poll = Poll(
    elapsedBefore: int,
    processFailure: Option<string>,
    response: Response,
    observedAt: int,
    elapsedAfter: int,
    exited: Option<string>)

  datatype Config = Config(startedAt: int, minimumDuration: nat, maximumDuration: nat, minimumDecisionCycles: nat)

  datatype StopReason = BudgetExhausted | RuntimeFailure | ReadFailure | EvidenceFailure | MinimumReached

  datatype Status = PASS | FAIL | INCOMPLETE

  datatype Outcome = Outcome(state: State, stopReason: StopReason, failure: Option<string>, collected: nat)

  function StatusOf(o: Outcome): Status {
    if o.failure.Some? then FAIL
    else if o.stopReason == MinimumReached && !o.state.truncated then PASS
    else INCOMPLETE
  }

  ghost function Collect(cmp: Collation, cfg: Config, st: State, response: Response, observedAt: int): Step
    requires response.Snapshot?
  {
    var admitted := AdmitAll(Roll(cmp, st, response.window), response.window, cfg.startedAt, observedAt);
    Step(admitted.state, if admitted.failure.Some? then admitted.failure else response.ordersFailure)
  }

  function FirstFailure(first: Option<string>, second: Option<string>): Option<string> {
    if first.Some? then first else second
  }

  /** The polling loop; running out of polls stands for the duration budget being used up before the next read. */
  ghost function Observe(cmp: Collation, cfg: Config, st: State, polls: seq<Poll>, collected: nat): Outcome
    decreases |polls|
  {
    if |polls| == 0 || polls[0].elapsedBefore >= cfg.maximumDuration then Outcome(st, BudgetExhausted, None, collected)
    else
      var p := polls[0];
      if p.processFailure.Some? then Outcome(st, RuntimeFailure, p.processFailure, collected)
      else if p.elapsedAfter > cfg.maximumDuration then
        Outcome(st, BudgetExhausted, if p.response.Refused? then Some(p.response.failure) else None, collected)
      else if p.response.Refused? then Outcome(st, ReadFailure, Some(p.response.failure), collected)
      else if p.response.Unreadable? then Outcome(st, EvidenceFailure, Some(p.response.failure), collected)
      else
        var step := Collect(cmp, cfg, st, p.response, p.observedAt);
        var failure := FirstFailure(p.response.snapshotFailure, step.failure);
        if failure.Some? then Outcome(step.state, EvidenceFailure, failure, collected + 1)
        else if p.exited.Some? then Outcome(step.state, RuntimeFailure, p.exited, collected + 1)
        else if p.elapsedAfter >= cfg.minimumDuration && |step.state.decisionCycles| >= cfg.minimumDecisionCycles then
          Outcome(step.state, MinimumReached, None, collected + 1)
        else if p.elapsedAfter >= cfg.maximumDuration then Outcome(step.state, BudgetExhausted, None, collected + 1)
        else Observe(cmp, cfg, step.state, polls[1..], collected + 1)
  }

  // ----- The observer as the source writes it: variables updated in loops -----

  class Observer {
    const cmp: Collation
    const cfg: Config
    var events: map<string, Event>
    var decisionCycles: set<string>
    var previousValid: bool
    var previousNewest: Option<string>
    var previousFull: bool
    var capped: nat
    var anchored: nat
    var moved: nat
    var truncated: bool

    ghost function Abstract(): State
      reads this
    {
      State(events, decisionCycles, previousValid, previousNewest, previousFull, capped, anchored, moved, truncated)
    }

    constructor (cmp: Collation, cfg: Config, initialWindow: seq<Event>)
      ensures this.cmp == cmp && this.cfg == cfg
      ensures Abstract() == Initial(cmp, initialWindow)
    {
      this.cmp, this.cfg := cmp, cfg;
      events, decisionCycles, capped, anchored, moved, truncated := map[], {}, 0, 0, 0, false;
      var valid := ValidProjectionOrder(cmp, initialWindow);
      previousValid := valid;
      previousNewest := if valid then NewestId(initialWindow) else None;
      previousFull := |initialWindow| >= WINDOW_CAP;
    }

    static method ValidProjectionOrder(cmp: Collation, window: seq<Event>) returns (valid: bool)
      ensures valid <==> ValidOrder(cmp, window)
    {
      hide InOrder, WellIdentified;
      var ids: set<string> := {};
      for i := 0 to |window|
        invariant ValidOrder(cmp, window[..i])
        invariant ids == set k | 0 <= k < i :: IdOf(window[k])
      {
        var e := window[i];
        if !Orderable(e) || e.id in ids || (i > 0 && !InOrder(cmp, window[i - 1], e)) {
          return false;
        }
        ids := ids + {e.id};
        assert forall k :: 0 <= k < i ==> IdOf(window[k]) in ids - {e.id};
      }
      assert window[..|window|] == window;
      return true;
    }

    /** The window bookkeeping of one collected snapshot. */
    method RollWindow(window: seq<Event>)
      modifies this
      ensures Abstract() == Roll(cmp, old(Abstract()), window)
    {
      hide IdOf, ValidOrder;
      var valid := ValidProjectionOrder(cmp, window);
      var present := false;
      if previousNewest.Some? {
        for i := 0 to |window|
          invariant present <==> exists k :: 0 <= k < i && IdOf(window[k]) == previousNewest.value
          invariant unchanged(this)
        {
          if IdOf(window[i]) == previousNewest.value {
            present := true;
          }
        }
      }
      var linked := previousValid && valid && present;
      if |window| >= WINDOW_CAP {
        capped := capped + 1;
        if linked {
          anchored := anchored + 1;
          if NewestId(window) != previousNewest {
            moved := moved + 1;
          }
        } else {
          truncated := true;
        }
      }
      if previousFull && !linked {
        truncated := true;
      }
      previousValid := valid;
      previousNewest := if valid then NewestId(window) else None;
      previousFull := |window| >= WINDOW_CAP;
    }

    /** One event of the window. */
    method AdmitEvent(e: Event, observedAt: int) returns (failure: Option<string>)
      modifies this`events, this`decisionCycles, this`truncated
      ensures Step(Abstract(), failure) == Admit(old(Abstract()), e, cfg.startedAt, observedAt)
    {
      if e.Malformed? { return Some("PAPER_LEARNING_EVENT_INVALID"); }
      if e.occurredAt.None? { return Some("PAPER_LEARNING_EVENT_TIME_INVALID"); }
      if e.occurredAt.value < cfg.startedAt { return None; }
      if e.occurredAt.value > observedAt + FUTURE_TOLERANCE_MS { return Some("PAPER_LEARNING_EVENT_TIME_IN_FUTURE"); }
      if !WellFormedEvent(e) { return Some("PAPER_LEARNING_EVENT_IDENTITY_INVALID"); }
      if e.id in events {
        return if events[e.id] != e then Some("PAPER_LEARNING_EVENT_ID_CONFLICT") else None;
      }
      if |events| >= MAXIMUM_EVENTS {
        truncated := true;
        return None;
      }
      events := events[e.id := e];
      if e.stage == "DECISION" {
        decisionCycles := decisionCycles + {e.cycleId};
      }
      return if e.stage in {"ERROR", "HALT"} && e.status == "FAIL" then Some(e.details) else None;
    }

    method CollectSnapshot(response: Response, observedAt: int) returns (failure: Option<string>)
      requires response.Snapshot?
      modifies this
      ensures Step(Abstract(), failure) == Collect(cmp, cfg, old(Abstract()), response, observedAt)
    {
      var window := response.window;
      RollWindow(window);
      ghost var target := AdmitAll(Abstract(), window, cfg.startedAt, observedAt);
      for i := 0 to |window|
        invariant AdmitAll(Abstract(), window[i..], cfg.startedAt, observedAt) == target
      {
        assert window[i..][0] == window[i] && window[i..][1..] == window[i + 1..];
        failure := AdmitEvent(window[i], observedAt);
        if failure.Some? {
          return;
        }
      }
      return response.ordersFailure;
    }

    method Run(polls: seq<Poll>) returns (outcome: Outcome)
      modifies this
      ensures outcome == Observe(cmp, cfg, old(Abstract()), polls, 0)
      ensures Abstract() == outcome.state
    {
      ghost var target := Observe(cmp, cfg, Abstract(), polls, 0);
      var collected := 0;
      var stop, failure := BudgetExhausted, None;
      for i := 0 to |polls|
        invariant stop == BudgetExhausted && failure == None
        invariant Observe(cmp, cfg, Abstract(), polls[i..], collected) == target
      {
        var p := polls[i];
        assert polls[i..][0] == p && polls[i..][1..] == polls[i + 1..];
        if p.elapsedBefore >= cfg.maximumDuration { break; }
        if p.processFailure.Some? { stop, failure := RuntimeFailure, p.processFailure; break; }
        if p.elapsedAfter > cfg.maximumDuration {
          if p.response.Refused? { failure := Some(p.response.failure); }
          break;
        }
        if p.response.Refused? { stop, failure := ReadFailure, Some(p.response.failure); break; }
        if p.response.Unreadable? { stop, failure := EvidenceFailure, Some(p.response.failure); break; }
        var collection := CollectSnapshot(p.response, p.observedAt);
        collected := collected + 1;
        failure := FirstFailure(p.response.snapshotFailure, collection);
        if failure.Some? { stop := EvidenceFailure; break; }
        if p.exited.Some? { stop, failure := RuntimeFailure, p.exited; break; }
        if p.elapsedAfter >= cfg.minimumDuration && |decisionCycles| >= cfg.minimumDecisionCycles {
          stop := MinimumReached;
          break;
        }
        if p.elapsedAfter >= cfg.maximumDuration { break; }
      }
      outcome := Outcome(
        State(events, decisionCycles, previousValid, previousNewest, previousFull, capped, anchored, moved, truncated),
        stop, failure, collected);
    }
  }
}
