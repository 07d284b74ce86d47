/**
 What a PASS of the bounded observation proves (scripts/actual-paper-runtime-e2e.js).

 The windows are projections of an append-only log with distinct ids. A passing run records exactly the events in scope
 that its windows show, whatever the log does; an event is missed exactly when it sorts behind everything every window
 shows. Nothing is missed when the events appended between two reads sort before the newest event of the first one.
 */
module ObservationCompleteness {
  import opened Prelude
  import opened Observation

  // ----- The log and its projections -----

  /** `a` sorts strictly before `b` in the newest-first projection. */
  predicate Newer(cmp: Collation, a: Event, b: Event) {
    && Orderable(a) && Orderable(b)
    && (|| a.occurredAt.value > b.occurredAt.value
        || (a.occurredAt.value == b.occurredAt.value && cmp(a.id, b.id) < 0))
  }

  ghost predicate WellFormedLog(log: seq<Event>) {
    && (forall i :: 0 <= i < |log| ==> Orderable(log[i]))
    && (forall i, j :: 0 <= i < j < |log| ==> log[i].id != log[j].id)
  }

  /** Every appended event sorts before everything already in the log. */
  ghost predicate Monotone(cmp: Collation, log: seq<Event>) {
    forall i, j :: 0 <= i < j < |log| ==> Newer(cmp, log[j], log[i])
  }

  /** `window` is a newest-first listing of the `width` first events of the sorted log. */
  ghost predicate IsProjection(cmp: Collation, log: seq<Event>, width: nat, window: seq<Event>) {
    && |window| == width <= |log|
    && (forall i :: 0 <= i < width ==> window[i] in log)
    && (forall i, j :: 0 <= i < j < width ==> window[i] != window[j])
    && (forall i, j :: 0 <= i < j < width ==> !Newer(cmp, window[j], window[i]))
    && (forall e, i :: e in log && e !in window && 0 <= i < width ==> !Newer(cmp, e, window[i]))
  }

  function Newest(log: seq<Event>, width: nat): seq<Event>
    requires width <= |log|
  {
    seq(width, i requires 0 <= i < width => log[|log| - 1 - i])
  }

  /** The first event of a projection of a monotone log is the last one appended. */
  lemma ProjectionStartsWithLast(cmp: Collation, log: seq<Event>, width: nat, window: seq<Event>)
    requires WellFormedLog(log) && Monotone(cmp, log)
    requires IsProjection(cmp, log, width, window) && width > 0
    ensures window[0] == log[|log| - 1]
  {
    var last := log[|log| - 1];
    assert last in log;
    assert forall e :: e in log && e != last ==> Newer(cmp, last, e);
  }

  /** Dropping the newest event from the log and from its projection leaves a projection. */
  lemma ProjectionTail(cmp: Collation, log: seq<Event>, width: nat, window: seq<Event>)
    requires WellFormedLog(log) && IsProjection(cmp, log, width, window)
    requires width > 0 && window[0] == log[|log| - 1]
    ensures IsProjection(cmp, log[..|log| - 1], width - 1, window[1..])
  {
    var shorter, tail := log[..|log| - 1], window[1..];
    assert forall e :: e in log <==> e in shorter || e == window[0] by {
      assert log == shorter + [window[0]];
    }
    assert forall e :: e in window <==> e in tail || e == window[0] by {
      assert window == [window[0]] + tail;
    }
    assert window[0] !in shorter by {
      assert forall k :: 0 <= k < |shorter| ==> shorter[k].id != window[0].id;
    }
    assert forall i :: 0 <= i < |tail| ==> tail[i] == window[i + 1];
  }

  /** Under the strongest ordering hypothesis a projection is the newest part of the log, newest first. */
  lemma {:induction false} ProjectionIsNewest(cmp: Collation, log: seq<Event>, width: nat, window: seq<Event>)
    requires WellFormedLog(log) && Monotone(cmp, log)
    requires IsProjection(cmp, log, width, window)
    ensures width <= |log| && window == Newest(log, width)
    ensures forall e :: e in window ==> e in log
    decreases width
  {
    hide IsProjection, Monotone, WellFormedLog;
    ProjectionFits(cmp, log, width, window);
    if width > 0 {
      ProjectionStartsWithLast(cmp, log, width, window);
      ProjectionTail(cmp, log, width, window);
      var shorter := log[..|log| - 1];
      PrefixIsMonotone(cmp, log, |log| - 1);
      ProjectionIsNewest(cmp, shorter, width - 1, window[1..]);
      assert window == [window[0]] + Newest(shorter, width - 1);
    }
  }

  lemma ProjectionFits(cmp: Collation, log: seq<Event>, width: nat, window: seq<Event>)
    requires IsProjection(cmp, log, width, window)
    ensures |window| == width <= |log| && forall e :: e in window ==> e in log
  {
  }

  lemma PrefixIsMonotone(cmp: Collation, log: seq<Event>, length: nat)
    requires WellFormedLog(log) && Monotone(cmp, log) && length <= |log|
    ensures WellFormedLog(log[..length]) && Monotone(cmp, log[..length])
  {
  }

  /** As many distinct events as the log has are all of them. */
  lemma {:induction false} DistinctCount(events: seq<Event>)
    requires forall i, j :: 0 <= i < j < |events| ==> events[i] != events[j]
    ensures |set e | e in events| == |events|
    decreases |events|
  {
    if |events| > 0 {
      var n := |events| - 1;
      DistinctCount(events[..n]);
      assert events == events[..n] + [events[n]];
      assert (set e | e in events) == (set e | e in events[..n]) + {events[n]};
    } else {
      assert (set e | e in events) == {};
    }
  }

  /** A projection as wide as its log shows every event. */
  lemma WholeLogIsShown(cmp: Collation, log: seq<Event>, window: seq<Event>)
    requires WellFormedLog(log) && IsProjection(cmp, log, |log|, window)
    ensures forall e :: e in log ==> e in window
  {
    DistinctCount(log);
    DistinctCount(window);
    var all, shown := set e | e in log, set e | e in window;
    assert shown <= all;
    SameSizeSubset(shown, all);
    forall e | e in log ensures e in window {
      assert e in all;
    }
  }

  lemma SameSizeSubset<T>(a: set<T>, b: set<T>)
    requires a <= b && |a| == |b|
    ensures a == b
  {
    assert b == a + (b - a);
    assert |b - a| == |b| - |a|;
  }

  // ----- Reads of the log -----

  /** At the time of a read the log had `length` events and `width` of them were shown. */
  datatype Mark = Mark(length: nat, width: nat)

  /**
   The window right after a full one may have any width, since older events may have been trimmed in between. A window
   below the cap that follows another one below the cap shows the whole log.
   */
  predicate HonestWidths(before: Mark, after: Mark) {
    before.width < WINDOW_CAP && after.width < WINDOW_CAP ==> after.width == after.length
  }

  /** The windows of the collected polls are projections of growing prefixes of one log. */
  ghost predicate Reads(cmp: Collation, log: seq<Event>, before: Mark, polls: seq<Poll>, marks: seq<Mark>)
    decreases |polls|
  {
    && |marks| == |polls|
    && (|polls| > 0 ==>
      && before.length <= marks[0].length <= |log|
      && HonestWidths(before, marks[0])
      && (polls[0].response.Snapshot? ==>
        IsProjection(cmp, log[..marks[0].length], marks[0].width, polls[0].response.window))
      && Reads(cmp, log, if polls[0].response.Snapshot? then marks[0] else before, polls[1..], marks[1..]))
  }

  /**
   Between two reads of which one was full, only events that sort before the newest one shown at the first arrived.
   */
  ghost predicate GapOnTop(cmp: Collation, log: seq<Event>, before: Mark, shown: seq<Event>, after: Mark)
    requires before.length <= after.length <= |log|
  {
    (before.width >= WINDOW_CAP || after.width >= WINDOW_CAP) && |shown| > 0 ==>
      forall j :: before.length <= j < after.length ==> Newer(cmp, log[j], shown[0])
  }

  /** The ordering hypothesis of a run: every gap between two reads is on top of the window before it. */
  ghost predicate ArrivesOnTop(
    cmp: Collation, log: seq<Event>, before: Mark, shown: seq<Event>, polls: seq<Poll>, marks: seq<Mark>)
    requires Reads(cmp, log, before, polls, marks)
    decreases |polls|
  {
    |polls| > 0 ==>
      if polls[0].response.Snapshot? then
        && GapOnTop(cmp, log, before, shown, marks[0])
        && ArrivesOnTop(cmp, log, marks[0], polls[0].response.window, polls[1..], marks[1..])
      else ArrivesOnTop(cmp, log, before, shown, polls[1..], marks[1..])
  }

  /** The log length at the last collected poll. */
  ghost function LastLength(start: nat, marks: seq<Mark>, collected: nat): nat
    requires collected <= |marks|
  {
    if collected == 0 then start else marks[collected - 1].length
  }

  // ----- What holds after every collected poll -----

  /** Dated from the start on? */
  predicate InScope(e: Event, startedAt: int) {
    e.Event? && e.occurredAt.Some? && e.occurredAt.value >= startedAt
  }

  predicate IsRecorded(e: Event, events: map<string, Event>) {
    e.Event? && e.id in events && events[e.id] == e
  }

  /** An event in scope is recorded, unchanged, under its own id. */
  predicate Kept(e: Event, startedAt: int, events: map<string, Event>) {
    InScope(e, startedAt) ==> IsRecorded(e, events)
  }

  ghost predicate Recorded(cfg: Config, log: seq<Event>, from: nat, to: nat, events: map<string, Event>)
    requires from <= to <= |log|
  {
    forall i :: from <= i < to ==> Kept(log[i], cfg.startedAt, events)
  }

  ghost predicate Sound(cfg: Config, log: seq<Event>, to: nat, events: map<string, Event>)
    requires to <= |log|
  {
    forall id :: id in events ==>
      events[id] in log[..to] && IdOf(events[id]) == id && InScope(events[id], cfg.startedAt)
  }

  predicate DecidesCycle(e: Event, cycle: string) {
    e.Event? && e.stage == "DECISION" && e.cycleId == cycle
  }

  ghost predicate CyclesMatch(st: State) {
    forall c :: c in st.decisionCycles <==> exists id :: id in st.events && DecidesCycle(st.events[id], c)
  }

  /** The anchor is the newest event of the last window shown. */
  ghost predicate Anchored(mark: Mark, shown: seq<Event>, st: State) {
    && |shown| == mark.width
    && st.previousFull == (mark.width >= WINDOW_CAP)
    && (st.previousNewest.Some? ==> |shown| > 0 && st.previousNewest.value == IdOf(shown[0]))
  }

  /** The invariant of the polling loop: the anchor is in place, and nothing since `base` is missing. */
  ghost predicate Tracked(cfg: Config, log: seq<Event>, base: nat, mark: Mark, shown: seq<Event>, st: State) {
    && base <= mark.length <= |log|
    && (forall i :: 0 <= i < |shown| ==> shown[i] in log[..mark.length])
    && Anchored(mark, shown, st)
    && CyclesMatch(st)
    && Sound(cfg, log, mark.length, st.events)
    && (!st.truncated ==> Recorded(cfg, log, base, mark.length, st.events))
  }

  // ----- One window -----

  /** Nothing recorded is lost, and whatever is added is an event in scope of the window, under its own id. */
  ghost predicate Grows(before: State, after: State, window: seq<Event>, startedAt: int) {
    && after == before.(events := after.events, decisionCycles := after.decisionCycles, truncated := after.truncated)
    && (before.truncated ==> after.truncated)
    && (forall id :: id in before.events ==> id in after.events && after.events[id] == before.events[id])
    && (forall id :: id in after.events && id !in before.events ==>
      after.events[id] in window && IdOf(after.events[id]) == id && InScope(after.events[id], startedAt))
  }

  lemma NewEventKeeps(st: State, e: Event, startedAt: int)
    requires InScope(e, startedAt) && e.id !in st.events
    ensures CyclesMatch(st) ==> CyclesMatch(WithEvent(st, e))
    ensures Grows(st, WithEvent(st, e), [e], startedAt)
    ensures Kept(e, startedAt, WithEvent(st, e).events)
  {
    hide WithEvent;
    EventAdded(st, e);
    if CyclesMatch(st) {
      NewCycleMatches(st, e);
    }
  }

  lemma NewCycleMatches(st: State, e: Event)
    requires CyclesMatch(st) && e.Event? && e.id !in st.events
    ensures CyclesMatch(WithEvent(st, e))
  {
    hide WithEvent;
    var after := WithEvent(st, e);
    EventAdded(st, e);
    forall c
      ensures c in after.decisionCycles <==> exists id :: id in after.events && DecidesCycle(after.events[id], c)
    {
      if c in st.decisionCycles {
        var id :| id in st.events && DecidesCycle(st.events[id], c);
        assert DecidesCycle(after.events[id], c);
      }
      if DecidesCycle(e, c) {
        assert DecidesCycle(after.events[e.id], c);
      }
    }
  }

  lemma EventAdded(st: State, e: Event)
    requires e.Event?
    ensures var after := WithEvent(st, e);
      && after == st.(events := after.events, decisionCycles := after.decisionCycles)
      && after.events == st.events[e.id := e]
      && forall c :: c in after.decisionCycles <==> c in st.decisionCycles || DecidesCycle(e, c)
  {
  }

  lemma AdmitKeeps(st: State, e: Event, startedAt: int, observedAt: int)
    ensures var step := Admit(st, e, startedAt, observedAt);
      && (CyclesMatch(st) ==> CyclesMatch(step.state))
      && Grows(st, step.state, [e], startedAt)
      && (step.failure.None? && !step.state.truncated ==> Kept(e, startedAt, step.state.events))
  {
    hide WithEvent, CyclesMatch, Grows, WellIdentified;
    TruncationKeeps(st, e, startedAt);
    if InScope(e, startedAt) && e.id !in st.events {
      NewEventKeeps(st, e, startedAt);
    }
  }

  lemma TruncationKeeps(st: State, e: Event, startedAt: int)
    ensures CyclesMatch(st) <==> CyclesMatch(st.(truncated := true))
    ensures Grows(st, st, [e], startedAt) && Grows(st, st.(truncated := true), [e], startedAt)
  {
  }

  /** A window admitted without failure or truncation is in the record in full, and nothing else was added. */
  lemma {:induction false} AdmitAllKeeps(st: State, window: seq<Event>, startedAt: int, observedAt: int)
    ensures var step := AdmitAll(st, window, startedAt, observedAt);
      && (CyclesMatch(st) ==> CyclesMatch(step.state))
      && Grows(st, step.state, window, startedAt)
      && (step.failure.None? && !step.state.truncated ==>
        forall i :: 0 <= i < |window| ==> Kept(window[i], startedAt, step.state.events))
    decreases |window|
  {
    if |window| > 0 {
      AdmitKeeps(st, window[0], startedAt, observedAt);
      var first := Admit(st, window[0], startedAt, observedAt);
      if first.failure.None? {
        AdmitAllKeeps(first.state, window[1..], startedAt, observedAt);
        forall i | 0 < i < |window| ensures window[i] == window[1..][i - 1] {}
      }
    }
  }

  /** The anchor test: a linked window shows every event that has arrived on top of the previous one. */
  lemma LinkedWindowCovers(
    cmp: Collation, log: seq<Event>, before: Mark, shown: seq<Event>, st: State, after: Mark, window: seq<Event>)
    requires WellFormedLog(log) && before.length <= after.length <= |log|
    requires forall i :: 0 <= i < |shown| ==> shown[i] in log[..before.length]
    requires Anchored(before, shown, st) && Continuous(cmp, st, window)
    requires IsProjection(cmp, log[..after.length], after.width, window)
    requires forall j :: before.length <= j < after.length ==> Newer(cmp, log[j], shown[0])
    ensures forall j :: before.length <= j < after.length ==> log[j] in window
  {
    var k :| 0 <= k < |window| && IdOf(window[k]) == st.previousNewest.value;
    assert window[k] in log[..after.length] && shown[0] in log[..before.length];
    assert window[k] == shown[0];
    forall j | before.length <= j < after.length ensures log[j] in window {
      assert log[j] in log[..after.length];
    }
  }

  /** After one more window nothing is missing, whether the anchor linked it or neither window was full. */
  lemma CollectRecords(
    cmp: Collation, cfg: Config, log: seq<Event>, base: nat, before: Mark, shown: seq<Event>, st: State,
    after: Mark, window: seq<Event>, events: map<string, Event>)
    requires WellFormedLog(log) && before.length <= after.length <= |log|
    requires Tracked(cfg, log, base, before, shown, st) && HonestWidths(before, after)
    requires IsProjection(cmp, log[..after.length], after.width, window) && GapOnTop(cmp, log, before, shown, after)
    requires !Roll(cmp, st, window).truncated
    requires forall id :: id in st.events ==> id in events && events[id] == st.events[id]
    requires forall i :: 0 <= i < |window| ==> Kept(window[i], cfg.startedAt, events)
    ensures Recorded(cfg, log, base, after.length, events)
  {
    hide Newer, ValidOrder;
    assert forall j :: before.length <= j < after.length ==> log[j] in window by {
      if Continuous(cmp, st, window) && (before.width >= WINDOW_CAP || after.width >= WINDOW_CAP) {
        LinkedWindowCovers(cmp, log, before, shown, st, after, window);
      } else {
        WholeLogIsShown(cmp, log[..after.length], window);
        assert forall j :: 0 <= j < after.length ==> log[j] in log[..after.length];
      }
    }
    forall i | base <= i < after.length ensures Kept(log[i], cfg.startedAt, events) {
      if i >= before.length {
        assert log[i] in window;
      }
    }
  }

  lemma CollectKeepsTracked(
    cmp: Collation, cfg: Config, log: seq<Event>, base: nat, before: Mark, shown: seq<Event>, st: State,
    after: Mark, response: Response, observedAt: int)
    requires WellFormedLog(log) && Tracked(cfg, log, base, before, shown, st)
    requires before.length <= after.length <= |log| && HonestWidths(before, after)
    requires response.Snapshot? && IsProjection(cmp, log[..after.length], after.width, response.window)
    requires GapOnTop(cmp, log, before, shown, after)
    requires Collect(cmp, cfg, st, response, observedAt).failure.None?
    ensures Tracked(cfg, log, base, after, response.window, Collect(cmp, cfg, st, response, observedAt).state)
  {
    hide IsProjection, AdmitAll, Continuous, ValidOrder, HonestWidths, GapOnTop, WellFormedLog, Recorded;
    ProjectionFits(cmp, log[..after.length], after.width, response.window);
    var rolled := Roll(cmp, st, response.window);
    AdmitAllKeeps(rolled, response.window, cfg.startedAt, observedAt);
    var final := AdmitAll(rolled, response.window, cfg.startedAt, observedAt).state;
    assert Sound(cfg, log, after.length, final.events) by {
      assert forall e :: e in log[..before.length] ==> e in log[..after.length];
    }
    if !final.truncated {
      CollectRecords(cmp, cfg, log, base, before, shown, st, after, response.window, final.events);
    }
  }

  // ----- Whole runs -----

  /** A passing run collects its first poll without failure, and then either stops there or passes on the rest. */
  lemma PassUnfolds(cmp: Collation, cfg: Config, st: State, polls: seq<Poll>, collected: nat)
    requires StatusOf(Observe(cmp, cfg, st, polls, collected)) == PASS
    ensures |polls| > 0 && polls[0].response.Snapshot?
    ensures var o, step := Observe(cmp, cfg, st, polls, collected),
      Collect(cmp, cfg, st, polls[0].response, polls[0].observedAt);
      && step.failure.None?
      && !o.state.truncated
      && (|| o == Observe(cmp, cfg, step.state, polls[1..], collected + 1)
          || (o == Outcome(step.state, MinimumReached, None, collected + 1)
              && |step.state.decisionCycles| >= cfg.minimumDecisionCycles))
  {
  }

  /** Over any number of polls: a PASS leaves the invariant true at the last collected read. */
  lemma {:induction false} PassKeepsTracked(
    cmp: Collation, cfg: Config, log: seq<Event>, base: nat, before: Mark, shown: seq<Event>, st: State,
    polls: seq<Poll>, marks: seq<Mark>, collected: nat)
    requires WellFormedLog(log) && Tracked(cfg, log, base, before, shown, st)
    requires Reads(cmp, log, before, polls, marks) && ArrivesOnTop(cmp, log, before, shown, polls, marks)
    requires StatusOf(Observe(cmp, cfg, st, polls, collected)) == PASS
    ensures var o := Observe(cmp, cfg, st, polls, collected);
      && collected < o.collected <= collected + |polls|
      && polls[o.collected - collected - 1].response.Snapshot?
      && Tracked(cfg, log, base, marks[o.collected - collected - 1], polls[o.collected - collected - 1].response.window,
        o.state)
      && |o.state.decisionCycles| >= cfg.minimumDecisionCycles
    decreases |polls|
  {
    hide Tracked, Collect, GapOnTop, WellFormedLog, IsProjection, Observe;
    PassUnfolds(cmp, cfg, st, polls, collected);
    var p := polls[0];
    CollectKeepsTracked(cmp, cfg, log, base, before, shown, st, marks[0], p.response, p.observedAt);
    var next := Collect(cmp, cfg, st, p.response, p.observedAt).state;
    var o := Observe(cmp, cfg, st, polls, collected);
    if o == Observe(cmp, cfg, next, polls[1..], collected + 1) {
      PassKeepsTracked(cmp, cfg, log, base, marks[0], p.response.window, next, polls[1..], marks[1..], collected + 1);
      assert marks[1..][o.collected - collected - 2] == marks[o.collected - collected - 1];
      assert polls[1..][o.collected - collected - 2] == polls[o.collected - collected - 1];
    }
  }

  lemma InitialIsTracked(cmp: Collation, cfg: Config, log: seq<Event>, initial: Mark, initialWindow: seq<Event>)
    requires initial.length <= |log| && IsProjection(cmp, log[..initial.length], initial.width, initialWindow)
    ensures Tracked(cfg, log, initial.length, initial, initialWindow, Initial(cmp, initialWindow))
  {
    hide IsProjection, ValidOrder;
    ProjectionFits(cmp, log[..initial.length], initial.width, initialWindow);
  }

  /**
   Completeness of a PASS. With `base` events in the log at the initial snapshot and `reached` at the last collected
   poll, every event appended in between with a timestamp from the start on is recorded under its own id, nothing that
   the log does not hold is recorded, and the decision cycles are exactly those of the recorded DECISION events. What
   arrives between two reads may come in any order, as long as it sorts before the newest event of the first window; and
   where neither window is full, nothing is asked of the order at all.
   */
  lemma PassIsComplete(
    cmp: Collation, cfg: Config, log: seq<Event>, initial: Mark, initialWindow: seq<Event>, polls: seq<Poll>,
    marks: seq<Mark>)
    requires WellFormedLog(log)
    requires initial.length <= |log| && IsProjection(cmp, log[..initial.length], initial.width, initialWindow)
    requires Reads(cmp, log, initial, polls, marks) && ArrivesOnTop(cmp, log, initial, initialWindow, polls, marks)
    requires StatusOf(Observe(cmp, cfg, Initial(cmp, initialWindow), polls, 0)) == PASS
    ensures var o := Observe(cmp, cfg, Initial(cmp, initialWindow), polls, 0);
      && 1 <= o.collected <= |polls|
      && var reached := LastLength(initial.length, marks, o.collected);
      && initial.length <= reached <= |log|
      && Recorded(cfg, log, initial.length, reached, o.state.events)
      && Sound(cfg, log, reached, o.state.events)
      && CyclesMatch(o.state)
      && |o.state.decisionCycles| >= cfg.minimumDecisionCycles
  {
    hide Reads, ArrivesOnTop, Observe, Initial, WellFormedLog, IsProjection;
    InitialIsTracked(cmp, cfg, log, initial, initialWindow);
    PassKeepsTracked(cmp, cfg, log, initial.length, initial, initialWindow, Initial(cmp, initialWindow), polls, marks,
      0);
    PassIsNotTruncated(cmp, cfg, Initial(cmp, initialWindow), polls);
  }

  lemma PassIsNotTruncated(cmp: Collation, cfg: Config, st: State, polls: seq<Poll>)
    requires StatusOf(Observe(cmp, cfg, st, polls, 0)) == PASS
    ensures !Observe(cmp, cfg, st, polls, 0).state.truncated
  {
    hide Observe;
  }

  /** A log whose events are each newer than all before meets the hypothesis, whatever the reads. */
  lemma {:induction false} MonotoneArrivesOnTop(
    cmp: Collation, log: seq<Event>, before: Mark, shown: seq<Event>, polls: seq<Poll>, marks: seq<Mark>)
    requires Monotone(cmp, log) && Reads(cmp, log, before, polls, marks)
    requires before.length <= |log| && forall i :: 0 <= i < |shown| ==> shown[i] in log[..before.length]
    ensures ArrivesOnTop(cmp, log, before, shown, polls, marks)
    decreases |polls|
  {
    hide IsProjection, HonestWidths, Newer;
    if |polls| > 0 {
      if polls[0].response.Snapshot? {
        ProjectionFits(cmp, log[..marks[0].length], marks[0].width, polls[0].response.window);
        MonotoneArrivesOnTop(cmp, log, marks[0], polls[0].response.window, polls[1..], marks[1..]);
      } else {
        MonotoneArrivesOnTop(cmp, log, before, shown, polls[1..], marks[1..]);
      }
    }
  }

  /** No window full: every order of arrival meets the hypothesis. */
  lemma {:induction false} ShortWindowsArriveOnTop(
    cmp: Collation, log: seq<Event>, before: Mark, shown: seq<Event>, polls: seq<Poll>, marks: seq<Mark>)
    requires Reads(cmp, log, before, polls, marks)
    requires before.width < WINDOW_CAP && forall k :: 0 <= k < |marks| ==> marks[k].width < WINDOW_CAP
    ensures ArrivesOnTop(cmp, log, before, shown, polls, marks)
    decreases |polls|
  {
    hide IsProjection, HonestWidths, Newer;
    if |polls| > 0 {
      if polls[0].response.Snapshot? {
        ShortWindowsArriveOnTop(cmp, log, marks[0], polls[0].response.window, polls[1..], marks[1..]);
      } else {
        ShortWindowsArriveOnTop(cmp, log, before, shown, polls[1..], marks[1..]);
      }
    }
  }

  // ----- What a PASS records, without any hypothesis -----

  /** One of the first `n` polls shows the event. */
  ghost predicate ShownIn(e: Event, polls: seq<Poll>, n: nat) {
    exists k :: 0 <= k < n && k < |polls| && polls[k].response.Snapshot? && e in polls[k].response.window
  }

  lemma ShownInTail(e: Event, polls: seq<Poll>, n: nat)
    requires |polls| > 0 && n > 0 && polls[0].response.Snapshot?
    ensures ShownIn(e, polls, n) <==> e in polls[0].response.window || ShownIn(e, polls[1..], n - 1)
  {
    if ShownIn(e, polls, n) {
      var k :| 0 <= k < n && k < |polls| && polls[k].response.Snapshot? && e in polls[k].response.window;
      assert k > 0 ==> polls[1..][k - 1] == polls[k];
    }
    if ShownIn(e, polls[1..], n - 1) {
      var k :| 0 <= k < n - 1 && k < |polls| - 1 && polls[1..][k].response.Snapshot?
        && e in polls[1..][k].response.window;
      assert polls[k + 1] == polls[1..][k];
    }
  }

  lemma CollectRecordsWindow(cmp: Collation, cfg: Config, st: State, response: Response, observedAt: int, e: Event)
    requires response.Snapshot?
    requires var step := Collect(cmp, cfg, st, response, observedAt); step.failure.None? && !step.state.truncated
    ensures var step := Collect(cmp, cfg, st, response, observedAt);
      (IsRecorded(e, step.state.events) <==>
            IsRecorded(e, st.events) || (e in response.window && InScope(e, cfg.startedAt)))
  {
    hide AdmitAll, Continuous, ValidOrder;
    AdmitAllKeeps(Roll(cmp, st, response.window), response.window, cfg.startedAt, observedAt);
  }

  /** Truncation is never taken back. */
  lemma {:induction false} TruncationStays(cmp: Collation, cfg: Config, st: State, polls: seq<Poll>, collected: nat)
    requires st.truncated
    ensures Observe(cmp, cfg, st, polls, collected).state.truncated
    decreases |polls|
  {
    hide AdmitAll, Continuous, ValidOrder;
    if |polls| > 0 && polls[0].response.Snapshot? {
      var p := polls[0];
      AdmitAllKeeps(Roll(cmp, st, p.response.window), p.response.window, cfg.startedAt, p.observedAt);
      var next := Collect(cmp, cfg, st, p.response, p.observedAt).state;
      TruncationStays(cmp, cfg, next, polls[1..], collected + 1);
    }
  }

  /** Whatever the windows are, a passing run records exactly the events in scope that its collected windows show. */
  lemma {:induction false} PassRecordsWhatItShows(
    cmp: Collation, cfg: Config, st: State, polls: seq<Poll>, collected: nat, e: Event)
    requires StatusOf(Observe(cmp, cfg, st, polls, collected)) == PASS
    ensures var o := Observe(cmp, cfg, st, polls, collected);
      && collected < o.collected <= collected + |polls|
      && (IsRecorded(e, o.state.events) <==>
            IsRecorded(e, st.events) || (InScope(e, cfg.startedAt) && ShownIn(e, polls, o.collected - collected)))
    decreases |polls|
  {
    hide Collect, Observe, InScope, IsRecorded, ShownIn;
    PassUnfolds(cmp, cfg, st, polls, collected);
    var p := polls[0];
    var step := Collect(cmp, cfg, st, p.response, p.observedAt);
    var o := Observe(cmp, cfg, st, polls, collected);
    if o == Observe(cmp, cfg, step.state, polls[1..], collected + 1) {
      if step.state.truncated {
        TruncationStays(cmp, cfg, step.state, polls[1..], collected + 1);
      }
      CollectRecordsWindow(cmp, cfg, st, p.response, p.observedAt, e);
      PassRecordsWhatItShows(cmp, cfg, step.state, polls[1..], collected + 1, e);
      ShownInTail(e, polls, o.collected - collected);
    } else {
      CollectRecordsWindow(cmp, cfg, st, p.response, p.observedAt, e);
      ShownInTail(e, polls, 1);
      NotShownInNothing(e, polls[1..]);
    }
  }

  lemma NotShownInNothing(e: Event, polls: seq<Poll>)
    ensures !ShownIn(e, polls, 0)
  {
  }
}
