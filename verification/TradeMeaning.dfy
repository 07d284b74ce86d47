/**
 What a run of the backtest loop is, said without the loop: where each trade begins and ends, that the bars between
 trades are those where the rule does not enter, what a trade returns, and what compounding and averaging make of it.
 */
module TradeMeaning {
  import opened Numbers
  import opened Prelude
  import opened Indicators
  import opened TradeLoop
  import opened TradeLaws

  // ----- The trades of a run -----

  /** `peak` is the highest close from bar `at` to bar `t`. */
  ghost predicate IsHighestClose(s: Series, at: nat, t: nat, peak: real)
    requires at <= t < |s|
  {
    && (forall k :: at <= k <= t ==> s[k].c <= peak)
    && exists k :: at <= k <= t && s[k].c == peak
  }

  /** Asked at bar `t` about the trade entered at `at`, with the highest close since, the rule wants to leave. */
  ghost predicate WantsOut(rule: Rule, s: Series, at: nat, t: nat)
    requires at <= t < |s|
  {
    exists peak :: IsHighestClose(s, at, t, peak) && rule.exit(t, at, peak)
  }

  /** The rule enters at none of the bars from `from` on, up to `to`. */
  ghost predicate StaysOut(rule: Rule, from: nat, to: nat) {
    forall t :: from <= t < to ==> !rule.enter(t)
  }

  /** The rule wants to leave at none of the bars after `at`, up to `to`. */
  ghost predicate StaysIn(rule: Rule, s: Series, at: nat, to: nat)
    requires to <= |s|
  {
    forall t :: at < t < to ==> !WantsOut(rule, s, at, t)
  }

  /** The trade entered at `at` ends at the first bar where the rule wants to leave, or else at the last bar. */
  ghost predicate EndsAt(rule: Rule, s: Series, at: nat, exitBar: nat, end: nat)
    requires at < end <= |s|
  {
    || (at < exitBar < end && WantsOut(rule, s, at, exitBar) && StaysIn(rule, s, at, exitBar))
    || (exitBar == end - 1 && StaysIn(rule, s, at, end))
  }

  /** The first bar at which trade number `k` may begin. */
  function Earliest(spans: seq<Span>, from: nat, k: nat): nat
    requires k <= |spans|
  {
    if k == 0 then from else spans[k - 1].exitBar + 1
  }

  /** A trade is entered at the first bar from `earliest` on where the rule enters. */
  ghost predicate IsTrade(rule: Rule, s: Series, earliest: nat, end: nat, span: Span)
    requires end <= |s|
  {
    && earliest <= span.entryBar < end && rule.enter(span.entryBar) && StaysOut(rule, earliest, span.entryBar)
    && EndsAt(rule, s, span.entryBar, span.exitBar, end)
  }

  /** The list holds every trade of the bars from `from` on, up to `end`. */
  ghost predicate AreTrades(rule: Rule, s: Series, from: nat, end: nat, spans: seq<Span>)
    requires end <= |s|
  {
    && (forall k :: 0 <= k < |spans| ==> IsTrade(rule, s, Earliest(spans, from, k), end, spans[k]))
    && StaysOut(rule, Earliest(spans, from, |spans|), end)
  }

  lemma AskedWithPeak(rule: Rule, s: Series, at: nat, t: nat)
    requires at <= t < |s|
    ensures WantsOut(rule, s, at, t) <==> rule.exit(t, at, PeakClose(s, at, t))
  {
    PeakIsHighestClose(s, at, t);
    hide PeakClose;
    assert IsHighestClose(s, at, t, PeakClose(s, at, t));
    forall peak | IsHighestClose(s, at, t, peak) ensures peak == PeakClose(s, at, t) {
      var k :| at <= k <= t && s[k].c == peak;
      var j :| at <= j <= t && s[j].c == PeakClose(s, at, t);
    }
  }

  // ----- The walk makes them -----

  /** Closed by the rule before bar `t`. */
  ghost predicate IsSignalTrade(rule: Rule, s: Series, earliest: nat, t: nat, span: Span)
    requires t <= |s|
  {
    && earliest <= span.entryBar < span.exitBar < t
    && rule.enter(span.entryBar) && StaysOut(rule, earliest, span.entryBar)
    && WantsOut(rule, s, span.entryBar, span.exitBar) && StaysIn(rule, s, span.entryBar, span.exitBar)
  }

  ghost predicate AreSignalTrades(rule: Rule, s: Series, from: nat, t: nat, spans: seq<Span>)
    requires t <= |s|
  {
    forall k :: 0 <= k < |spans| ==> IsSignalTrade(rule, s, Earliest(spans, from, k), t, spans[k])
  }

  /** The position held before bar `t`. */
  ghost predicate IsOpen(rule: Rule, s: Series, earliest: nat, t: nat, at: nat)
    requires t <= |s|
  {
    && earliest <= at < t && rule.enter(at)
    && StaysOut(rule, earliest, at) && StaysIn(rule, s, at, t)
  }

  ghost predicate WalkIsRight(rule: Rule, s: Series, from: nat, t: nat, w: Walk)
    requires t <= |s|
  {
    var earliest := Earliest(w.closed, from, |w.closed|);
    && earliest <= t
    && AreSignalTrades(rule, s, from, t, w.closed)
    && match w.open
       case None => StaysOut(rule, earliest, t)
       case Some(at) => IsOpen(rule, s, earliest, t, at)
  }

  lemma TradesStand(rule: Rule, s: Series, from: nat, t: nat, spans: seq<Span>)
    requires t < |s| && AreSignalTrades(rule, s, from, t, spans)
    ensures AreSignalTrades(rule, s, from, t + 1, spans)
  {
    hide WantsOut, StaysOut, StaysIn;
  }

  lemma TradeAdded(rule: Rule, s: Series, from: nat, t: nat, spans: seq<Span>, last: Span)
    requires t <= |s| && AreSignalTrades(rule, s, from, t, spans)
    requires IsSignalTrade(rule, s, Earliest(spans, from, |spans|), t, last)
    ensures AreSignalTrades(rule, s, from, t, spans + [last])
    ensures Earliest(spans + [last], from, |spans| + 1) == last.exitBar + 1
  {
    hide IsSignalTrade;
    var all := spans + [last];
    assert forall k :: 0 <= k < |spans| ==> all[k] == spans[k] && Earliest(all, from, k) == Earliest(spans, from, k);
    assert Earliest(all, from, |spans|) == Earliest(spans, from, |spans|);
  }

  /** One bar on with no position. */
  lemma FlatBar(rule: Rule, s: Series, earliest: nat, t: nat)
    requires earliest <= t < |s| && StaysOut(rule, earliest, t)
    ensures if rule.enter(t) then IsOpen(rule, s, earliest, t + 1, t) else StaysOut(rule, earliest, t + 1)
  {
  }

  /** One bar on with a position. */
  lemma HeldBar(rule: Rule, s: Series, earliest: nat, t: nat, at: nat)
    requires t < |s| && IsOpen(rule, s, earliest, t, at)
    ensures if rule.exit(t, at, PeakClose(s, at, t)) then IsSignalTrade(rule, s, earliest, t + 1, Span(at, t))
      else IsOpen(rule, s, earliest, t + 1, at)
  {
    hide WantsOut, PeakClose;
    AskedWithPeak(rule, s, at, t);
  }

  lemma {:induction false} WalkedIsRight(rule: Rule, s: Series, from: nat, t: nat)
    requires from <= t <= |s|
    ensures WalkIsRight(rule, s, from, t, Walked(rule, s, from, t))
    decreases t
  {
    hide PeakClose, IsSignalTrade, IsOpen, StaysOut, AreSignalTrades;
    if from < t {
      WalkedIsRight(rule, s, from, t - 1);
      var w := Walked(rule, s, from, t - 1);
      var earliest := Earliest(w.closed, from, |w.closed|);
      TradesStand(rule, s, from, t - 1, w.closed);
      match w.open
      case None => FlatBar(rule, s, earliest, t - 1);
      case Some(at) =>
        HeldBar(rule, s, earliest, t - 1, at);
        if rule.exit(t - 1, at, PeakClose(s, at, t - 1)) {
          TradeAdded(rule, s, from, t, w.closed, Span(at, t - 1));
          NothingToEnter(rule, t, t);
        }
    } else {
      NoTrades(rule, s, from);
    }
  }

  lemma NoTrades(rule: Rule, s: Series, from: nat)
    requires from <= |s|
    ensures AreSignalTrades(rule, s, from, from, []) && StaysOut(rule, from, from)
  {
  }

  lemma SignalTradeIsTrade(rule: Rule, s: Series, earliest: nat, end: nat, span: Span)
    requires end <= |s| && IsSignalTrade(rule, s, earliest, end, span)
    ensures IsTrade(rule, s, earliest, end, span)
  {
    hide WantsOut, StaysOut, StaysIn;
  }

  lemma OpenIsTrade(rule: Rule, s: Series, earliest: nat, end: nat, at: nat)
    requires end <= |s| && IsOpen(rule, s, earliest, end, at)
    ensures IsTrade(rule, s, earliest, end, Span(at, end - 1))
  {
    hide WantsOut, StaysOut, StaysIn;
  }

  lemma SignalTradesAreTrades(rule: Rule, s: Series, from: nat, end: nat, spans: seq<Span>)
    requires end <= |s| && AreSignalTrades(rule, s, from, end, spans)
    ensures forall k :: 0 <= k < |spans| ==> IsTrade(rule, s, Earliest(spans, from, k), end, spans[k])
  {
    hide IsTrade, IsSignalTrade;
    forall k | 0 <= k < |spans| ensures IsTrade(rule, s, Earliest(spans, from, k), end, spans[k]) {
      SignalTradeIsTrade(rule, s, Earliest(spans, from, k), end, spans[k]);
    }
  }

  lemma LastTradeAdded(rule: Rule, s: Series, from: nat, end: nat, spans: seq<Span>, last: Span)
    requires end <= |s| && last.exitBar == end - 1
    requires forall k :: 0 <= k < |spans| ==> IsTrade(rule, s, Earliest(spans, from, k), end, spans[k])
    requires IsTrade(rule, s, Earliest(spans, from, |spans|), end, last)
    ensures AreTrades(rule, s, from, end, spans + [last])
  {
    hide IsTrade;
    var all := spans + [last];
    assert forall k :: 0 <= k < |spans| ==> all[k] == spans[k] && Earliest(all, from, k) == Earliest(spans, from, k);
    assert Earliest(all, from, |spans|) == Earliest(spans, from, |spans|);
  }

  lemma WalkMakesTrades(rule: Rule, s: Series, from: nat, end: nat, w: Walk)
    requires end <= |s| && WalkIsRight(rule, s, from, end, w)
    ensures w.open.None? ==> AreTrades(rule, s, from, end, w.closed)
    ensures w.open.Some? ==> AreTrades(rule, s, from, end, w.closed + [Span(w.open.value, end - 1)])
  {
    hide IsTrade, IsOpen, StaysOut, AreSignalTrades;
    SignalTradesAreTrades(rule, s, from, end, w.closed);
    if w.open.Some? {
      HeldIsPast(rule, s, Earliest(w.closed, from, |w.closed|), end, w.open.value);
      OpenIsTrade(rule, s, Earliest(w.closed, from, |w.closed|), end, w.open.value);
      LastTradeAdded(rule, s, from, end, w.closed, Span(w.open.value, end - 1));
    }
  }

  lemma HeldIsPast(rule: Rule, s: Series, earliest: nat, t: nat, at: nat)
    requires t <= |s| && IsOpen(rule, s, earliest, t, at)
    ensures at < t
  {
  }

  lemma SpansAreTrades(rule: Rule, s: Series, start: nat, end: nat)
    requires end <= |s|
    ensures AreTrades(rule, s, if start < 201 then 201 else start, end, Spans(rule, s, start, end))
  {
    hide WalkIsRight, Walked;
    var from := FirstBar(start);
    if end <= from {
      NothingToEnter(rule, from, end);
    } else {
      WalkedIsRight(rule, s, from, end);
      WalkMakesTrades(rule, s, from, end, Walked(rule, s, from, end));
      hide AreTrades;
      assert Walked(rule, s, from, end).closed + [] == Walked(rule, s, from, end).closed;
    }
  }

  lemma NothingToEnter(rule: Rule, from: nat, to: nat)
    requires to <= from
    ensures StaysOut(rule, from, to)
  {
  }

  // ----- There is one such list -----

  lemma OneTrade(rule: Rule, s: Series, earliest: nat, end: nat, a: Span, b: Span)
    requires end <= |s| && IsTrade(rule, s, earliest, end, a) && IsTrade(rule, s, earliest, end, b)
    ensures a == b
  {
    hide WantsOut;
    assert a.entryBar == b.entryBar;
  }

  lemma {:induction false} SameSoFar(rule: Rule, s: Series, from: nat, end: nat, a: seq<Span>, b: seq<Span>, n: nat)
    requires end <= |s| && AreTrades(rule, s, from, end, a) && AreTrades(rule, s, from, end, b)
    requires n <= |a| && n <= |b|
    ensures a[..n] == b[..n]
  {
    hide IsTrade, StaysOut;
    if n > 0 {
      SameSoFar(rule, s, from, end, a, b, n - 1);
      assert n > 1 ==> a[..n - 1][n - 2] == b[..n - 1][n - 2];
      OneTrade(rule, s, Earliest(a, from, n - 1), end, a[n - 1], b[n - 1]);
    }
  }

  lemma TradeBreaksIn(rule: Rule, s: Series, earliest: nat, end: nat, span: Span)
    requires end <= |s| && IsTrade(rule, s, earliest, end, span)
    ensures !StaysOut(rule, earliest, end)
  {
    hide EndsAt;
  }

  lemma NoneLeft(rule: Rule, s: Series, from: nat, end: nat, a: seq<Span>, b: seq<Span>)
    requires end <= |s| && AreTrades(rule, s, from, end, a) && AreTrades(rule, s, from, end, b)
    ensures |a| <= |b|
  {
    hide IsTrade, StaysOut;
    if |a| > |b| {
      SameSoFar(rule, s, from, end, a, b, |b|);
      assert |b| > 0 ==> a[..|b|][|b| - 1] == b[|b| - 1];
      TradeBreaksIn(rule, s, Earliest(a, from, |b|), end, a[|b|]);
    }
  }

  /**
   The trades of a run, for every rule, series and range: from bar 201 or `start`, whichever is later, each is entered
   at the first bar after the one before where the rule enters, and ends at the first later bar where the rule, told
   the highest close since entry, wants to leave, or at the last bar. No other list of trades has these properties.
   */
  lemma SpansAreTheTrades(rule: Rule, s: Series, start: nat, end: nat, spans: seq<Span>)
    requires end <= |s|
    ensures AreTrades(rule, s, if start < 201 then 201 else start, end, spans) <==> spans == Spans(rule, s, start, end)
  {
    hide AreTrades;
    var from, made := if start < 201 then 201 else start, Spans(rule, s, start, end);
    SpansAreTrades(rule, s, start, end);
    if AreTrades(rule, s, from, end, spans) {
      NoneLeft(rule, s, from, end, spans, made);
      NoneLeft(rule, s, from, end, made, spans);
      SameSoFar(rule, s, from, end, spans, made, |made|);
    }
  }

  // ----- What trades return -----

  /** What is spent at entry, grown by the return, is what is received at exit, costs counted on both sides. */
  lemma ReturnBalances(s: Series, span: Span, fee: real, slip: real)
    requires PositiveCloses(s) && Costs(fee, slip) && span.entryBar < |s| && span.exitBar < |s|
    ensures (s[span.entryBar].c * (1.0 + slip) * (1.0 + fee)) * (1.0 + SpanReturn(s, span, fee, slip)) ==
      s[span.exitBar].c * (1.0 - slip) * (1.0 - fee)
  {
    var outlay := Raised(Raised(s[span.entryBar].c, slip), fee);
    var proceeds := Proceeds(s[span.exitBar].c, fee, slip);
    Quotient(proceeds, outlay);
  }

  lemma Quotient(n: real, d: real)
    requires d > 0.0
    ensures d * (n / d) == n
  {
  }

  /** Without costs a trade returns what the price does. */
  lemma FreeTradeReturnsThePrice(s: Series, span: Span)
    requires PositiveCloses(s) && span.entryBar < |s| && span.exitBar < |s|
    ensures s[span.entryBar].c * (1.0 + SpanReturn(s, span, 0.0, 0.0)) == s[span.exitBar].c
  {
    ReturnBalances(s, span, 0.0, 0.0);
  }

  lemma Regroup(a: real, b: real, c: real)
    ensures a * (b * c) == (a * b) * c
  {
  }

  /** Compounding one run after another multiplies the growth; one return grows one by it. */
  lemma {:induction false} CompoundOfConcat(a: seq<real>, b: seq<real>)
    ensures Compound(a + b) == Compound(a) * Compound(b)
    ensures |a| == 1 ==> Compound(a) == 1.0 + a[0]
    ensures Compound([]) == 1.0
    decreases |b|
  {
    if |b| == 0 {
      assert a + b == a;
    } else {
      var n := |b| - 1;
      assert (a + b)[..|a| + n] == a + b[..n];
      CompoundOfConcat(a, b[..n]);
      Regroup(Compound(a), Compound(b[..n]), 1.0 + b[n]);
    }
    assert |a| == 1 ==> a[..0] == [];
  }

  /** A result of x percent is a hundredth of x gained on one. */
  lemma NetIsGainInPercent(r: seq<real>)
    ensures 100.0 * Compound(r) == 100.0 + Net(r)
  {
  }

  /** The mean, taken as often as there are values, makes up their sum; that of nothing is zero. */
  lemma AverageMakesUpSum(a: seq<real>)
    ensures |a| as real * Average(a) == Sum(a, 0, |a|)
    ensures a == [] ==> Average(a) == 0.0
  {
    if a != [] {
      hide Sum;
      Quotient(Sum(a, 0, |a|), |a| as real);
    }
  }
}
