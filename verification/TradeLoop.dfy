/**
 The backtest loop of the OHLCV screen (`run` in scripts/offline-ohlcv-catalog-screen.js). Which bars open and close a
 trade does not involve the costs, so a run is a list of spans and the costs only price them; that is what the
 cost-stress results rest on.
 */
module TradeLoop {
  import opened Numbers
  import opened Prelude
  import opened Indicators

  const WARMUP: nat := 201
  const WINDOWS: nat := 6

  /** A rule made for one series: entry at a bar, exit given the entry bar and the highest close since. */
  datatype Rule = Rule(enter: nat -> bool, exit: (nat, nat, real) -> bool)

  /** A trade from the close of one bar to the close of a later one. */
  datatype Span = Span(entryBar: nat, exitBar: nat)

  datatype Walk = Walk(closed: seq<Span>, open: Option<nat>)

  /** The highest close from bar `at` to bar `t`. */
  function PeakClose(s: Series, at: nat, t: nat): real
    requires at <= t < |s|
  {
    Greatest(Closes(s), at, t + 1)
  }

  function StepBar(rule: Rule, s: Series, w: Walk, t: nat): Walk
    requires t < |s| && (w.open.Some? ==> w.open.value < t)
  {
    match w.open
    case None => if rule.enter(t) then Walk(w.closed, Some(t)) else w
    case Some(at) => if rule.exit(t, at, PeakClose(s, at, t)) then Walk(w.closed + [Span(at, t)], None) else w
  }

  /** Position and closed trades after the bars from `from` up to `t`. */
  function Walked(rule: Rule, s: Series, from: nat, t: nat): (w: Walk)
    requires from <= t <= |s|
    ensures w.open.Some? ==> from <= w.open.value < t
    ensures forall k :: 0 <= k < |w.closed| ==> from <= w.closed[k].entryBar < w.closed[k].exitBar < t
    decreases t
  {
    if t == from then Walk([], None) else StepBar(rule, s, Walked(rule, s, from, t - 1), t - 1)
  }

  function FirstBar(start: nat): nat {
    if start < WARMUP then WARMUP else start
  }

  /** The trades of a run over [start, end) that the rule's own exit closed. */
  function SignalTrades(rule: Rule, s: Series, start: nat, end: nat): (spans: seq<Span>)
    requires end <= |s|
  {
    if end <= FirstBar(start) then [] else Walked(rule, s, FirstBar(start), end).closed
  }

  /** The position that a run over [start, end) leaves open; the run closes it at the last bar. */
  function LeftOpen(rule: Rule, s: Series, start: nat, end: nat): seq<Span>
    requires end <= |s|
  {
    if end <= FirstBar(start) then []
    else
      match Walked(rule, s, FirstBar(start), end).open
      case None => []
      case Some(at) => [Span(at, end - 1)]
  }

  function Spans(rule: Rule, s: Series, start: nat, end: nat): (spans: seq<Span>)
    requires end <= |s|
    ensures forall k :: 0 <= k < |spans| ==> FirstBar(start) <= spans[k].entryBar <= spans[k].exitBar < end
  {
    SignalTrades(rule, s, start, end) + LeftOpen(rule, s, start, end)
  }

  predicate Costs(fee: real, slip: real) {
    0.0 <= fee < 1.0 && 0.0 <= slip < 1.0
  }

  ghost predicate PositiveCloses(s: Series) {
    forall i :: 0 <= i < |s| ==> s[i].c > 0.0
  }

  /** A price raised by a rate: the entry price by the slippage, and what is spent on it by the fee. */
  function Raised(price: real, rate: real): (raised: real)
    requires price > 0.0 && 0.0 <= rate
    ensures raised > 0.0
  {
    price * (1.0 + rate)
  }

  function Proceeds(exit: real, fee: real, slip: real): real {
    exit * (1.0 - slip) * (1.0 - fee)
  }

  /** Return of selling at close `exit` what was bought at `paid`, under a fee per side and a slippage. */
  function SellReturn(exit: real, paid: real, fee: real, slip: real): real
    requires paid > 0.0 && Costs(fee, slip)
  {
    Proceeds(exit, fee, slip) / Raised(paid, fee) - 1.0
  }

  ghost predicate InSeries(spans: seq<Span>, s: Series) {
    forall k :: 0 <= k < |spans| ==> spans[k].entryBar < |s| && spans[k].exitBar < |s|
  }

  function SpanReturn(s: Series, span: Span, fee: real, slip: real): real
    requires PositiveCloses(s) && Costs(fee, slip) && span.entryBar < |s| && span.exitBar < |s|
  {
    SellReturn(s[span.exitBar].c, Raised(s[span.entryBar].c, slip), fee, slip)
  }

  function Returns(s: Series, spans: seq<Span>, fee: real, slip: real): (r: seq<real>)
    requires PositiveCloses(s) && Costs(fee, slip) && InSeries(spans, s)
  {
    seq(|spans|, k requires 0 <= k < |spans| => SpanReturn(s, spans[k], fee, slip))
  }

  lemma ReturnsGrow(s: Series, spans: seq<Span>, last: Span, fee: real, slip: real)
    requires PositiveCloses(s) && Costs(fee, slip) && InSeries(spans + [last], s)
    ensures InSeries(spans, s) && last.entryBar < |s| && last.exitBar < |s|
    ensures Returns(s, spans + [last], fee, slip) == Returns(s, spans, fee, slip) + [SpanReturn(s, last, fee, slip)]
  {
    assert forall k :: 0 <= k < |spans| ==> (spans + [last])[k] == spans[k];
    assert (spans + [last])[|spans|] == last;
    hide SpanReturn;
  }

  /** What the loop's variables say about the walk: a remembered entry is the open position, with its price and peak. */
  ghost predicate Remembers(s: Series, w: Walk, t: nat, slip: real, entry: Option<real>, at: nat, peak: real)
    requires PositiveCloses(s) && 0.0 <= slip
  {
    && (entry.Some? <==> w.open.Some?)
    && (entry.Some? ==>
          at == w.open.value < t <= |s| && entry.value == Raised(s[at].c, slip) && peak == PeakClose(s, at, t - 1))
  }

  /** The trade loop with its entry price, entry bar and running peak. */
  method Run(rule: Rule, s: Series, start: nat, end: nat, fee: real, slip: real) returns (r: seq<real>)
    requires end <= |s| && PositiveCloses(s) && Costs(fee, slip)
    ensures r == Returns(s, Spans(rule, s, start, end), fee, slip)
  {
    hide Returns, SellReturn, Raised, PeakClose;
    r := [];
    var entry: Option<real>, at, peak := None, 0, 0.0;
    var t := FirstBar(start);
    ghost var w := Walk([], None);
    ReturnsOfNone(s, fee, slip);
    while t < end
      invariant FirstBar(start) <= t <= (if end < FirstBar(start) then FirstBar(start) else end)
      invariant if t <= end then w == Walked(rule, s, FirstBar(start), t) else w == Walk([], None)
      invariant InSeries(w.closed, s) && r == Returns(s, w.closed, fee, slip)
      invariant Remembers(s, w, t, slip, entry, at, peak)
    {
      ghost var before := w;
      w := Walked(rule, s, FirstBar(start), t + 1);
      if entry.None? {
        if rule.enter(t) {
          entry, at, peak := Some(Raised(s[t].c, slip)), t, s[t].c;
          PeakStarts(s, t);
        }
      } else {
        PeakGrows(s, at, t);
        peak := RealMax(peak, s[t].c);
        if rule.exit(t, at, peak) {
          ReturnsGrow(s, before.closed, Span(at, t), fee, slip);
          r := r + [SellReturn(s[t].c, entry.value, fee, slip)];
          entry := None;
        }
      }
      t := t + 1;
    }
    if entry.Some? {
      ReturnsGrow(s, w.closed, Span(at, end - 1), fee, slip);
      r := r + [SellReturn(s[end - 1].c, entry.value, fee, slip)];
    } else {
      assert Spans(rule, s, start, end) == w.closed;
    }
  }

  lemma ReturnsOfNone(s: Series, fee: real, slip: real)
    requires PositiveCloses(s) && Costs(fee, slip)
    ensures Returns(s, [], fee, slip) == []
  {
  }

  lemma PeakStarts(s: Series, t: nat)
    requires t < |s|
    ensures PeakClose(s, t, t) == s[t].c
  {
  }

  lemma PeakGrows(s: Series, at: nat, t: nat)
    requires at < t < |s|
    ensures PeakClose(s, at, t) == RealMax(PeakClose(s, at, t - 1), s[t].c)
  {
  }

  /** The peak handed to an exit rule is the highest close since entry. */
  lemma PeakIsHighestClose(s: Series, at: nat, t: nat)
    requires at <= t < |s|
    ensures forall k :: at <= k <= t ==> s[k].c <= PeakClose(s, at, t)
    ensures exists k :: at <= k <= t && s[k].c == PeakClose(s, at, t)
  {
    ExtremesBound(Closes(s), at, t + 1);
    hide Greatest, Least;
    assert forall k :: at <= k <= t ==> Closes(s)[k] == s[k].c;
    var k :| at <= k < t + 1 && Closes(s)[k] == Greatest(Closes(s), at, t + 1);
    assert s[k].c == PeakClose(s, at, t);
  }
}
