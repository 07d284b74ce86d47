/**
 Laws of the backtest loop: trades follow one another and do not look ahead, the six windows tile the discovery range,
 and higher costs never improve a trade, a run, or the compounded and mean results made of it.
 */
module TradeLaws {
  import opened Prelude
  import opened Indicators
  import opened TradeLoop

  // ----- Trades over time -----

  /** Trades are made one after another: each ends before the next begins. */
  lemma {:induction false} TradesDoNotOverlap(rule: Rule, s: Series, from: nat, t: nat)
    requires from <= t <= |s|
    ensures var w := Walked(rule, s, from, t);
      && (forall j, k :: 0 <= j < k < |w.closed| ==> w.closed[j].exitBar < w.closed[k].entryBar)
      && (w.open.Some? ==> forall k :: 0 <= k < |w.closed| ==> w.closed[k].exitBar < w.open.value)
    decreases t
  {
    if from < t {
      TradesDoNotOverlap(rule, s, from, t - 1);
      hide PeakClose;
    }
  }

  /** A rule maker is causal when its decision at a bar is the same for any two series that agree up to that bar. */
  ghost predicate Causal(make: Series -> Rule) {
    forall s: Series, t: Series, i: nat | i < |s| && i < |t| && s[..i + 1] == t[..i + 1] ::
      SameDecisions(make(s), make(t), i)
  }

  ghost predicate SameDecisions(r: Rule, q: Rule, i: nat) {
    && r.enter(i) == q.enter(i)
    && forall at: nat, peak: real | at < i :: r.exit(i, at, peak) == q.exit(i, at, peak)
  }

  lemma PeakLooksBack(s: Series, t: Series, at: nat, i: nat)
    requires at <= i < |s| && i < |t| && s[..i + 1] == t[..i + 1]
    ensures PeakClose(s, at, i) == PeakClose(t, at, i)
  {
    ColumnsLookBack(s, t, i + 1);
    SameAt(Closes(s), Closes(t), i + 1);
    hide Closes;
    ExtremesLookBack(Closes(s), Closes(t), at, i + 1);
  }

  lemma {:induction false} WalkLooksBack(make: Series -> Rule, s: Series, t: Series, from: nat, n: nat)
    requires Causal(make) && from <= n <= |s| && n <= |t| && s[..n] == t[..n]
    ensures Walked(make(s), s, from, n) == Walked(make(t), t, from, n)
    decreases n
  {
    if from < n {
      assert s[..n - 1] == s[..n][..n - 1] == t[..n][..n - 1] == t[..n - 1];
      WalkLooksBack(make, s, t, from, n - 1);
      assert SameDecisions(make(s), make(t), n - 1) by { assert s[..n - 1 + 1] == t[..n - 1 + 1]; }
      var w := Walked(make(s), s, from, n - 1);
      if w.open.Some? {
        PeakLooksBack(s, t, w.open.value, n - 1);
      }
      hide PeakClose;
    }
  }

  lemma {:induction false} WalkGrows(rule: Rule, s: Series, from: nat, m: nat, n: nat)
    requires from <= m <= n <= |s|
    ensures Walked(rule, s, from, m).closed <= Walked(rule, s, from, n).closed
    decreases n
  {
    if m < n {
      WalkGrows(rule, s, from, m, n - 1);
      hide PeakClose;
    }
  }

  /**
   No look-ahead: for a causal rule, the trades closed by signal up to `end1` are a prefix of those of any later run
   over any series that continues the same bars.
   */
  lemma LaterBarsOnlyAddTrades(make: Series -> Rule, s: Series, t: Series, start: nat, end1: nat, end2: nat)
    requires Causal(make) && end1 <= |s| && end1 <= end2 <= |t| && s[..end1] == t[..end1]
    ensures SignalTrades(make(s), s, start, end1) <= SignalTrades(make(t), t, start, end2)
  {
    if FirstBar(start) < end1 {
      WalkLooksBack(make, s, t, FirstBar(start), end1);
      WalkGrows(make(t), t, FirstBar(start), end1, end2);
    }
    hide Walked;
  }

  /** Neither the trades nor the returns of a run up to `end` depend on any bar from `end` on. */
  lemma RunIgnoresLaterBars(make: Series -> Rule, s: Series, t: Series, start: nat, end: nat, fee: real, slip: real)
    requires Causal(make) && end <= |s| && end <= |t| && s[..end] == t[..end]
    requires PositiveCloses(s) && PositiveCloses(t) && Costs(fee, slip)
    ensures Spans(make(s), s, start, end) == Spans(make(t), t, start, end)
    ensures Returns(s, Spans(make(s), s, start, end), fee, slip) == Returns(t, Spans(make(t), t, start, end), fee, slip)
  {
    if FirstBar(start) < end {
      WalkLooksBack(make, s, t, FirstBar(start), end);
    }
    var spans := Spans(make(s), s, start, end);
    assert spans == Spans(make(t), t, start, end) by { hide Walked; }
    SameBars(s, t, end);
    hide SellReturn, Raised, Spans, Walked;
    assert forall k :: 0 <= k < |spans| ==> SpanReturn(s, spans[k], fee, slip) == SpanReturn(t, spans[k], fee, slip);
  }

  // ----- Windows -----

  function WindowSize(discoveryEnd: nat): int {
    (discoveryEnd - WARMUP) / WINDOWS
  }

  function Offset(discoveryEnd: nat): int {
    discoveryEnd - WindowSize(discoveryEnd) * WINDOWS
  }

  /** First bar of window `i`, and the bar after window `i - 1`. */
  function Border(discoveryEnd: nat, i: nat): int {
    Offset(discoveryEnd) + i * WindowSize(discoveryEnd)
  }

  predicate InWindow(discoveryEnd: nat, bar: int, i: nat) {
    Border(discoveryEnd, i) <= bar < Border(discoveryEnd, i + 1)
  }

  lemma BordersAscend(discoveryEnd: nat, i: nat, j: nat)
    requires i <= j && discoveryEnd >= WARMUP
    ensures Border(discoveryEnd, i) <= Border(discoveryEnd, j)
  {
    assert (j - i) * WindowSize(discoveryEnd) >= 0;
  }

  /** The windows start within six bars after the warm-up, and the last one ends where the holdout begins. */
  lemma WindowsSpanDiscovery(discoveryEnd: nat)
    ensures WARMUP <= Border(discoveryEnd, 0) < WARMUP + WINDOWS && Border(discoveryEnd, WINDOWS) == discoveryEnd
  {
  }

  /** The windows tile the discovery range: a bar lies in exactly one of them if it lies in the range, else in none. */
  lemma WindowsTile(discoveryEnd: nat, bar: int)
    requires discoveryEnd >= WARMUP
    ensures Border(discoveryEnd, 0) <= bar < discoveryEnd <==>
      exists i :: 0 <= i < WINDOWS && InWindow(discoveryEnd, bar, i)
    ensures forall i, j :: 0 <= i < j < WINDOWS && InWindow(discoveryEnd, bar, i) ==> !InWindow(discoveryEnd, bar, j)
  {
    WindowsSpanDiscovery(discoveryEnd);
    hide WindowSize, Offset, Border;
    if Border(discoveryEnd, 0) <= bar < discoveryEnd {
      var i := Within(discoveryEnd, bar, WINDOWS);
    }
    forall i: nat, j: nat | i < j && InWindow(discoveryEnd, bar, i) ensures !InWindow(discoveryEnd, bar, j) {
      BordersAscend(discoveryEnd, i + 1, j);
    }
    forall i: nat | i < WINDOWS && InWindow(discoveryEnd, bar, i)
      ensures Border(discoveryEnd, 0) <= bar < discoveryEnd
    {
      BordersAscend(discoveryEnd, 0, i);
      BordersAscend(discoveryEnd, i + 1, WINDOWS);
    }
  }

  lemma {:induction false} Within(discoveryEnd: nat, bar: int, n: nat) returns (i: nat)
    requires Border(discoveryEnd, 0) <= bar < Border(discoveryEnd, n)
    ensures i < n && InWindow(discoveryEnd, bar, i)
    decreases n
  {
    hide Border;
    if Border(discoveryEnd, n - 1) <= bar {
      i := n - 1;
    } else {
      i := Within(discoveryEnd, bar, n - 1);
    }
  }

  // ----- Costs -----

  ghost predicate NoBetter(stress: seq<real>, base: seq<real>) {
    |stress| == |base| && forall k :: 0 <= k < |base| ==> -1.0 < stress[k] <= base[k]
  }

  lemma ProductMonotone(a: real, b: real, x: real, y: real)
    requires 0.0 < a <= b && 0.0 < x <= y
    ensures 0.0 < a * x <= b * y
  {
    assert a * x <= b * x <= b * y;
  }

  lemma QuotientMonotone(n1: real, n2: real, d1: real, d2: real)
    requires 0.0 < n2 <= n1 && 0.0 < d1 <= d2
    ensures 0.0 < n2 / d2 <= n1 / d1
  {
    var q1, q2 := n1 / d1, n2 / d2;
    assert q1 * d1 == n1 && q2 * d2 == n2;
    assert q2 <= 0.0 ==> q2 * d2 <= 0.0;
    if q2 > q1 {
      ProductMonotone(d1, d2, q2, q2);
      assert q2 * d1 > q1 * d1;
    }
  }

  lemma ProceedsFall(exit: real, fee1: real, slip1: real, fee2: real, slip2: real)
    requires exit > 0.0 && Costs(fee1, slip1) && Costs(fee2, slip2) && fee1 <= fee2 && slip1 <= slip2
    ensures 0.0 < Proceeds(exit, fee2, slip2) <= Proceeds(exit, fee1, slip1)
  {
    ProductMonotone(exit, exit, 1.0 - slip2, 1.0 - slip1);
    ProductMonotone(exit * (1.0 - slip2), exit * (1.0 - slip1), 1.0 - fee2, 1.0 - fee1);
  }

  lemma OutlayRises(entry: real, fee1: real, slip1: real, fee2: real, slip2: real)
    requires entry > 0.0 && Costs(fee1, slip1) && Costs(fee2, slip2) && fee1 <= fee2 && slip1 <= slip2
    ensures Raised(Raised(entry, slip1), fee1) <= Raised(Raised(entry, slip2), fee2)
  {
    ProductMonotone(entry, entry, 1.0 + slip1, 1.0 + slip2);
    ProductMonotone(Raised(entry, slip1), Raised(entry, slip2), 1.0 + fee1, 1.0 + fee2);
  }

  /** A dearer trade between the same two bars returns no more, and never loses everything. */
  lemma DearerTradeReturnsNoMore(s: Series, span: Span, fee1: real, slip1: real, fee2: real, slip2: real)
    requires PositiveCloses(s) && span.entryBar < |s| && span.exitBar < |s|
    requires Costs(fee1, slip1) && Costs(fee2, slip2) && fee1 <= fee2 && slip1 <= slip2
    ensures -1.0 < SpanReturn(s, span, fee2, slip2) <= SpanReturn(s, span, fee1, slip1)
  {
    var entry, exit := s[span.entryBar].c, s[span.exitBar].c;
    ProceedsFall(exit, fee1, slip1, fee2, slip2);
    OutlayRises(entry, fee1, slip1, fee2, slip2);
    hide Proceeds, Raised;
    QuotientMonotone(Proceeds(exit, fee1, slip1), Proceeds(exit, fee2, slip2),
                     Raised(Raised(entry, slip1), fee1), Raised(Raised(entry, slip2), fee2));
  }

  /** Cost stress on one run: the same trades, each returning no more. */
  lemma DearerRunReturnsNoMore(
    rule: Rule, s: Series, start: nat, end: nat, fee1: real, slip1: real, fee2: real, slip2: real)
    requires PositiveCloses(s) && end <= |s|
    requires Costs(fee1, slip1) && Costs(fee2, slip2) && fee1 <= fee2 && slip1 <= slip2
    ensures NoBetter(Returns(s, Spans(rule, s, start, end), fee2, slip2),
      Returns(s, Spans(rule, s, start, end), fee1, slip1))
  {
    var spans := Spans(rule, s, start, end);
    hide SpanReturn, Spans;
    forall k | 0 <= k < |spans|
      ensures -1.0 < Returns(s, spans, fee2, slip2)[k] <= Returns(s, spans, fee1, slip1)[k]
    {
      DearerTradeReturnsNoMore(s, spans[k], fee1, slip1, fee2, slip2);
    }
  }

  /** Growth factor of compounding all returns. */
  function Compound(r: seq<real>): real {
    if r == [] then 1.0 else Compound(r[..|r| - 1]) * (1.0 + r[|r| - 1])
  }

  /** Compounded result in percent. */
  function Net(r: seq<real>): real {
    (Compound(r) - 1.0) * 100.0
  }

  function Average(a: seq<real>): real {
    if a == [] then 0.0 else Sum(a, 0, |a|) / |a| as real
  }

  lemma {:induction false} CompoundMonotone(stress: seq<real>, base: seq<real>)
    requires NoBetter(stress, base)
    ensures 0.0 < Compound(stress) <= Compound(base)
    decreases |base|
  {
    if |base| > 0 {
      var n := |base| - 1;
      CompoundMonotone(stress[..n], base[..n]);
      ProductMonotone(Compound(stress[..n]), Compound(base[..n]), 1.0 + stress[n], 1.0 + base[n]);
    }
  }

  ghost predicate NoLarger(low: seq<real>, high: seq<real>) {
    |low| == |high| && forall k :: 0 <= k < |high| ==> low[k] <= high[k]
  }

  lemma {:induction false} SumMonotone(low: seq<real>, high: seq<real>, n: nat)
    requires NoLarger(low, high) && n <= |low|
    ensures Sum(low, 0, n) <= Sum(high, 0, n)
  {
    if n > 0 {
      SumMonotone(low, high, n - 1);
    }
  }

  lemma AverageMonotone(low: seq<real>, high: seq<real>)
    requires NoLarger(low, high)
    ensures Average(low) <= Average(high)
  {
    if |low| > 0 {
      SumMonotone(low, high, |low|);
      hide Sum;
      DivideMonotone(Sum(low, 0, |low|), Sum(high, 0, |high|), |low| as real);
    }
  }

  lemma DivideMonotone(a: real, b: real, n: real)
    requires a <= b && n > 0.0
    ensures a / n <= b / n
  {
    var low, high := a / n, b / n;
    assert low * n == a && high * n == b;
    assert low > high ==> (low - high) * n > 0.0;
  }
}
