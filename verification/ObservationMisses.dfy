/**
 When a passing observation misses an event: exactly when the event sorts behind everything that every window shows from
 its arrival on. The module ends with such a run: a backdated event behind a full window.
 */
module ObservationMisses {
  import opened Prelude
  import opened Observation
  import opened ObservationCompleteness

  /**
   Among events of one millisecond the ids decide the order: `localeCompare` does so unless two of them are canonically
   equivalent texts, which compare equal.
   */
  ghost predicate Separated(cmp: Collation, log: seq<Event>)
    requires WellFormedLog(log)
  {
    forall a, b :: a in log && b in log && a.occurredAt == b.occurredAt ==>
      && (cmp(a.id, b.id) == 0 <==> a == b)
      && (cmp(a.id, b.id) < 0 <==> cmp(b.id, a.id) > 0)
  }

  /** Everything the window shows sorts before the event. */
  ghost predicate Behind(cmp: Collation, e: Event, window: seq<Event>) {
    forall i :: 0 <= i < |window| ==> Newer(cmp, window[i], e)
  }

  lemma NewerIsTotal(cmp: Collation, log: seq<Event>, a: Event, b: Event)
    requires WellFormedLog(log) && Separated(cmp, log) && a in log && b in log
    ensures !Newer(cmp, a, a)
    ensures a != b ==> Newer(cmp, a, b) || Newer(cmp, b, a)
  {
  }

  /** A projection leaves an event of its log out exactly when all it shows sorts before the event. */
  lemma LeftOutIffBehind(cmp: Collation, log: seq<Event>, width: nat, window: seq<Event>, e: Event)
    requires WellFormedLog(log) && Separated(cmp, log) && IsProjection(cmp, log, width, window) && e in log
    ensures e !in window <==> Behind(cmp, e, window)
  {
    hide Newer, Separated, WellFormedLog;
    if e in window {
      var i :| 0 <= i < |window| && window[i] == e;
      NewerIsTotal(cmp, log, e, e);
      assert !Newer(cmp, window[i], e);
    } else {
      forall i | 0 <= i < |window| ensures Newer(cmp, window[i], e) {
        assert window[i] in log && window[i] != e;
        NewerIsTotal(cmp, log, window[i], e);
      }
    }
  }

  /**
   Ids that compare equal within one millisecond leave the choice open: of two such events a window of one may show
   either, and the other is then left out without being behind it.
   */
  lemma TieHidesEither(cmp: Collation, a: Event, b: Event)
    requires WellFormedLog([a, b]) && a.Event? && b.Event? && a.occurredAt == b.occurredAt
    requires cmp(a.id, b.id) == 0 && cmp(b.id, a.id) == 0
    ensures IsProjection(cmp, [a, b], 1, [a]) && !Behind(cmp, b, [a])
    ensures IsProjection(cmp, [a, b], 1, [b]) && !Behind(cmp, a, [b])
  {
    assert [a, b][0] == a && [a, b][1] == b;
    assert [a][0] == a && [b][0] == b;
    assert !Newer(cmp, [a][0], b) && !Newer(cmp, [b][0], a);
  }

  lemma {:induction false} ReadAt(
    cmp: Collation, log: seq<Event>, before: Mark, polls: seq<Poll>, marks: seq<Mark>, k: nat)
    requires Reads(cmp, log, before, polls, marks) && k < |polls| && polls[k].response.Snapshot?
    ensures marks[k].length <= |log|
      && IsProjection(cmp, log[..marks[k].length], marks[k].width, polls[k].response.window)
    decreases |polls|
  {
    hide IsProjection, HonestWidths;
    if k > 0 {
      ReadAt(cmp, log, if polls[0].response.Snapshot? then marks[0] else before, polls[1..], marks[1..], k - 1);
    }
  }

  /** Every collected poll of a passing run is a snapshot. */
  lemma {:induction false} PassCollectsSnapshots(
    cmp: Collation, cfg: Config, st: State, polls: seq<Poll>, collected: nat)
    requires StatusOf(Observe(cmp, cfg, st, polls, collected)) == PASS
    ensures var n := Observe(cmp, cfg, st, polls, collected).collected - collected;
      0 < n <= |polls| && forall k :: 0 <= k < n ==> polls[k].response.Snapshot?
    decreases |polls|
  {
    hide Collect, Observe;
    PassUnfolds(cmp, cfg, st, polls, collected);
    var next := Collect(cmp, cfg, st, polls[0].response, polls[0].observedAt).state;
    var o := Observe(cmp, cfg, st, polls, collected);
    if o == Observe(cmp, cfg, next, polls[1..], collected + 1) {
      PassCollectsSnapshots(cmp, cfg, next, polls[1..], collected + 1);
      assert forall k :: 1 <= k < |polls| ==> polls[k] == polls[1..][k - 1];
    }
  }

  lemma PrefixIsSeparated(cmp: Collation, log: seq<Event>, length: nat)
    requires WellFormedLog(log) && Separated(cmp, log) && length <= |log|
    ensures WellFormedLog(log[..length]) && Separated(cmp, log[..length])
  {
  }

  /** A read shows an event exactly when it has arrived and is not behind everything shown. */
  lemma ShownIffNotBehind(cmp: Collation, log: seq<Event>, i: nat, length: nat, width: nat, window: seq<Event>)
    requires WellFormedLog(log) && Separated(cmp, log) && i < |log| && length <= |log|
    requires IsProjection(cmp, log[..length], width, window)
    ensures log[i] in window <==> i < length && !Behind(cmp, log[i], window)
  {
    hide Separated;
    var shown := log[..length];
    if i < length {
      assert log[i] == shown[i];
      PrefixIsSeparated(cmp, log, length);
      LeftOutIffBehind(cmp, shown, width, window, log[i]);
    } else {
      assert forall k :: 0 <= k < length ==> shown[k].id != log[i].id;
      assert log[i] !in shown;
    }
  }

  /**
   The exact condition: a passing run misses an event in scope of the log exactly when, at every collected read from its
   arrival on, the event sorts behind all that is shown. Nothing is asked of the order in which events arrive, and of
   the ids only that they separate the events of one millisecond.
   */
  lemma MissedIffBehindEveryWindow(
    cmp: Collation, cfg: Config, log: seq<Event>, initial: Mark, initialWindow: seq<Event>, polls: seq<Poll>,
    marks: seq<Mark>,
    i: nat)
    requires WellFormedLog(log) && Separated(cmp, log) && Reads(cmp, log, initial, polls, marks)
    requires StatusOf(Observe(cmp, cfg, Initial(cmp, initialWindow), polls, 0)) == PASS
    requires i < |log| && InScope(log[i], cfg.startedAt)
    ensures var o := Observe(cmp, cfg, Initial(cmp, initialWindow), polls, 0);
      && 1 <= o.collected <= |polls|
      && (forall k :: 0 <= k < o.collected ==> polls[k].response.Snapshot?)
      && (!IsRecorded(log[i], o.state.events) <==>
            forall k :: 0 <= k < o.collected && i < marks[k].length ==> Behind(cmp, log[i], polls[k].response.window))
  {
    hide Separated, WellFormedLog, Reads, Observe, IsProjection, Behind, InScope, ValidOrder;
    var st := Initial(cmp, initialWindow);
    var n := Observe(cmp, cfg, st, polls, 0).collected;
    PassCollectsSnapshots(cmp, cfg, st, polls, 0);
    PassRecordsWhatItShows(cmp, cfg, st, polls, 0, log[i]);
    ReadsHaveMarks(cmp, log, initial, polls, marks);
    forall k | 0 <= k < n
      ensures log[i] in polls[k].response.window <==>
        i < marks[k].length && !Behind(cmp, log[i], polls[k].response.window)
    {
      ReadAt(cmp, log, initial, polls, marks, k);
      ShownIffNotBehind(cmp, log, i, marks[k].length, marks[k].width, polls[k].response.window);
    }
  }

  lemma ReadsHaveMarks(cmp: Collation, log: seq<Event>, before: Mark, polls: seq<Poll>, marks: seq<Mark>)
    requires Reads(cmp, log, before, polls, marks)
    ensures |marks| == |polls|
  {
  }

  /** A late event leaves a window as it is exactly when it sorts before nothing the window shows. */
  lemma BackdatedEventIsInvisible(cmp: Collation, log: seq<Event>, width: nat, window: seq<Event>, late: Event)
    requires WellFormedLog(log + [late])
    requires IsProjection(cmp, log, width, window)
    ensures late !in window
    ensures IsProjection(cmp, log + [late], width, window) <==> forall i :: 0 <= i < width ==>
      !Newer(cmp, late, window[i])
  {
    var longer := log + [late];
    assert late !in log by {
      assert longer[|log|] == late;
      assert forall k :: 0 <= k < |log| ==> longer[k] == log[k] && longer[k].id != late.id;
    }
    assert forall e :: e in longer <==> e in log || e == late;
  }

  // ----- A passing run that misses an event -----

  /** Letters only, one more for each event. */
  function Letters(n: nat): (id: string)
    ensures |id| == n && forall k :: 0 <= k < n ==> id[k] == 'a'
  {
    seq(n, k => 'a')
  }

  /** The events of the log: one decision a millisecond. */
  function Regular(i: nat): Event {
    Event(Letters(i + 1), Some(i + 2), "cycle", "DECISION", "PASS", "")
  }

  function RegularLog(): (log: seq<Event>)
    ensures |log| == WINDOW_CAP
  {
    seq(WINDOW_CAP, i requires 0 <= i < WINDOW_CAP => Regular(i))
  }

  const LATE: Event := Event("late", Some(1), "cycle", "DECISION", "PASS", "")

  const MISSING_RUN: Config := Config(0, 1000, 2000, 1)

  function MissingPoll(): Poll {
    Poll(0, None, Snapshot(Newest(RegularLog(), WINDOW_CAP), None, None), 10000, 1000, None)
  }

  /** Events that the observer takes without complaint. */
  ghost predicate Clean(window: seq<Event>, st: State, startedAt: int, observedAt: int) {
    && (forall i :: 0 <= i < |window| ==>
          && WellFormedEvent(window[i]) && InScope(window[i], startedAt)
          && window[i].occurredAt.value <= observedAt + FUTURE_TOLERANCE_MS
          && window[i].stage == "DECISION" && window[i].id !in st.events)
    && (forall i, j :: 0 <= i < j < |window| ==> window[i].id != window[j].id)
    && |st.events| + |window| <= MAXIMUM_EVENTS
  }

  lemma {:induction false} CleanWindowIsTaken(st: State, window: seq<Event>, startedAt: int, observedAt: int)
    requires Clean(window, st, startedAt, observedAt)
    ensures var step := AdmitAll(st, window, startedAt, observedAt);
      && step.failure.None? && step.state.truncated == st.truncated
      && st.decisionCycles <= step.state.decisionCycles
      && (|window| > 0 ==> window[0].cycleId in step.state.decisionCycles)
    decreases |window|
  {
    if |window| > 0 {
      var next := Admit(st, window[0], startedAt, observedAt).state;
      assert next == WithEvent(st, window[0]);
      assert next.events.Keys == st.events.Keys + {window[0].id};
      CleanWindowIsTaken(next, window[1..], startedAt, observedAt);
    }
  }

  ghost predicate TimesAscend(log: seq<Event>)
    requires WellFormedLog(log)
  {
    forall i, j :: 0 <= i < j < |log| ==> log[i].occurredAt.value < log[j].occurredAt.value
  }

  lemma NewestDescends(log: seq<Event>, width: nat)
    requires WellFormedLog(log) && width <= |log| && TimesAscend(log)
    ensures var window := Newest(log, width);
      && |window| == width
      && (forall i :: 0 <= i < width ==> Orderable(window[i]) && window[i] in log)
      && (forall i, j :: 0 <= i < j < width ==>
        window[i].id != window[j].id && window[j].occurredAt.value < window[i].occurredAt.value)
  {
    hide Orderable;
    assert forall i :: 0 <= i < width ==> Newest(log, width)[i] == log[|log| - 1 - i];
  }

  lemma BehindNewest(log: seq<Event>, width: nat, e: Event, i: nat)
    requires WellFormedLog(log) && TimesAscend(log) && i < width <= |log|
    requires e in log && e !in Newest(log, width)
    ensures e.occurredAt.value < Newest(log, width)[i].occurredAt.value
  {
    hide Orderable;
    var window := Newest(log, width);
    assert forall k :: |log| - width <= k < |log| ==> window[|log| - 1 - k] == log[k];
    var k :| 0 <= k < |log| && log[k] == e;
  }

  lemma NewestIsProjection(cmp: Collation, log: seq<Event>, width: nat)
    requires WellFormedLog(log) && width <= |log| && TimesAscend(log)
    ensures IsProjection(cmp, log, width, Newest(log, width)) && ValidOrder(cmp, Newest(log, width))
  {
    hide WellFormedLog, Newest, TimesAscend, WellIdentified;
    NewestDescends(log, width);
    forall e, i | e in log && e !in Newest(log, width) && 0 <= i < width ensures !Newer(cmp, e, Newest(log, width)[i]) {
      BehindNewest(log, width, e, i);
    }
  }

  lemma RegularEvents()
    ensures WellFormedLog(RegularLog())
    ensures forall i :: 0 <= i < WINDOW_CAP ==>
      RegularLog()[i].occurredAt == Some(i + 2) && RegularLog()[i].id != LATE.id
  {
    var log := RegularLog();
    assert forall i :: 0 <= i < WINDOW_CAP ==> log[i] == Regular(i) && |log[i].id| == i + 1 && log[i].id[0] == 'a';
    hide Letters;
  }

  lemma RegularWindow(cmp: Collation)
    ensures WellFormedLog(RegularLog() + [LATE]) && ValidOrder(cmp, Newest(RegularLog(), WINDOW_CAP))
    ensures IsProjection(cmp, RegularLog(), WINDOW_CAP, Newest(RegularLog(), WINDOW_CAP))
    ensures IsProjection(cmp, RegularLog() + [LATE], WINDOW_CAP, Newest(RegularLog(), WINDOW_CAP))
  {
    hide RegularLog, IsProjection, ValidOrder;
    var log := RegularLog();
    var window := Newest(log, WINDOW_CAP);
    RegularEvents();
    NewestIsProjection(cmp, log, WINDOW_CAP);
    assert forall i :: 0 <= i < WINDOW_CAP ==> window[i] == log[WINDOW_CAP - 1 - i];
    assert WellFormedLog(log + [LATE]);
    BackdatedEventIsInvisible(cmp, log, WINDOW_CAP, window, LATE);
  }

  /**
   A run that passes without an event in scope: the log holds a full window, an event dated before all of it arrives
   after the initial snapshot, and the next read shows the same window. The anchor links the two reads.
   */
  lemma PassCanMissAnEvent(cmp: Collation)
    ensures var log, window, full := RegularLog() + [LATE], Newest(RegularLog(), WINDOW_CAP),
      Mark(WINDOW_CAP, WINDOW_CAP);
      var o := Observe(cmp, MISSING_RUN, Initial(cmp, window), [MissingPoll()], 0);
      && WellFormedLog(log) && IsProjection(cmp, log[..WINDOW_CAP], WINDOW_CAP, window)
      && Reads(cmp, log, full, [MissingPoll()], [Mark(WINDOW_CAP + 1, WINDOW_CAP)])
      && StatusOf(o) == PASS && o.collected == 1
      && InScope(LATE, MISSING_RUN.startedAt) && !IsRecorded(LATE, o.state.events)
  {
    RegularWindow(cmp);
    var log, window := RegularLog() + [LATE], Newest(RegularLog(), WINDOW_CAP);
    assert log[..WINDOW_CAP] == RegularLog() && log[..WINDOW_CAP + 1] == log;
    MissingRunReads(cmp, log);
    MissingRunPasses(cmp);
  }

  lemma MissingRunReads(cmp: Collation, log: seq<Event>)
    requires log == RegularLog() + [LATE]
    requires IsProjection(cmp, log, WINDOW_CAP, Newest(RegularLog(), WINDOW_CAP))
    ensures Reads(cmp, log, Mark(WINDOW_CAP, WINDOW_CAP), [MissingPoll()], [Mark(WINDOW_CAP + 1, WINDOW_CAP)])
  {
    hide IsProjection, RegularLog;
    var polls, marks := [MissingPoll()], [Mark(WINDOW_CAP + 1, WINDOW_CAP)];
    assert log[..WINDOW_CAP + 1] == log;
    assert polls[1..] == [] && marks[1..] == [];
    assert Reads(cmp, log, marks[0], polls[1..], marks[1..]);
  }

  lemma MissingRunPasses(cmp: Collation)
    requires ValidOrder(cmp, Newest(RegularLog(), WINDOW_CAP))
    ensures var o := Observe(cmp, MISSING_RUN, Initial(cmp, Newest(RegularLog(), WINDOW_CAP)), [MissingPoll()], 0);
      StatusOf(o) == PASS && o.collected == 1 && !IsRecorded(LATE, o.state.events)
  {
    hide ValidOrder;
    var window := Newest(RegularLog(), WINDOW_CAP);
    var st := Initial(cmp, window);
    var rolled := Roll(cmp, st, window);
    assert window[0] == Regular(WINDOW_CAP - 1);
    assert IdOf(window[0]) == st.previousNewest.value;
    assert !rolled.truncated;
    RegularWindowIsClean(rolled);
    CleanWindowIsTaken(rolled, window, 0, 10000);
    hide AdmitAll, RegularLog;
    var step := Collect(cmp, MISSING_RUN, st, MissingPoll().response, 10000);
    assert step.failure.None? && !step.state.truncated;
    SomeCycle(step.state.decisionCycles, window[0].cycleId);
    CollectRecordsWindow(cmp, MISSING_RUN, st, MissingPoll().response, 10000, LATE);
    LateIsNotRegular();
    assert [MissingPoll()][0] == MissingPoll();
  }

  lemma RegularWindowIsClean(st: State)
    requires st.events == map[]
    ensures Clean(Newest(RegularLog(), WINDOW_CAP), st, 0, 10000)
  {
    var window := Newest(RegularLog(), WINDOW_CAP);
    assert forall i :: 0 <= i < WINDOW_CAP ==>
      window[i] == Regular(WINDOW_CAP - 1 - i) && |window[i].id| == WINDOW_CAP - i;
  }

  lemma LateIsNotRegular()
    ensures LATE !in Newest(RegularLog(), WINDOW_CAP)
  {
    var window := Newest(RegularLog(), WINDOW_CAP);
    assert forall i :: 0 <= i < WINDOW_CAP ==> window[i] == Regular(WINDOW_CAP - 1 - i);
  }

  lemma SomeCycle(cycles: set<string>, c: string)
    requires c in cycles
    ensures |cycles| >= 1
  {
  }
}
