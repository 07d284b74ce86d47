/**
 The discovery and holdout tests of the screen: one rule made for every market, six windows, base and doubled costs.
 The p-value of the holdout is a parameter, since it rests on a floating-point normal tail.
 */
module Screen {
  import opened Indicators
  import opened TradeLoop
  import opened TradeLaws

  const BASE_COST: real := 0.0005
  const STRESS_COST: real := 0.001

  /** Aligned markets: the same number of bars each, positive closes. */
  ghost predicate Aligned(markets: seq<Series>, bars: nat) {
    forall m :: 0 <= m < |markets| ==> |markets[m]| == bars && PositiveCloses(markets[m])
  }

  function MarketReturns(make: Series -> Rule, s: Series, start: nat, end: nat, cost: real): seq<real>
    requires PositiveCloses(s) && end <= |s| && Costs(cost, cost)
  {
    Returns(s, Spans(make(s), s, start, end), cost, cost)
  }

  function Nets(make: Series -> Rule, markets: seq<Series>, bars: nat, start: nat, end: nat, cost: real): seq<real>
    requires Aligned(markets, bars) && end <= bars && Costs(cost, cost)
  {
    seq(|markets|, m requires 0 <= m < |markets| => Net(MarketReturns(make, markets[m], start, end, cost)))
  }

  ghost predicate Discoverable(markets: seq<Series>, bars: nat, discoveryEnd: nat) {
    Aligned(markets, bars) && WARMUP <= discoveryEnd <= bars
  }

  lemma BordersInRange(discoveryEnd: nat, i: nat)
    requires discoveryEnd >= WARMUP && i <= WINDOWS
    ensures WARMUP <= Border(discoveryEnd, i) <= discoveryEnd
  {
    WindowsSpanDiscovery(discoveryEnd);
    BordersAscend(discoveryEnd, 0, i);
    BordersAscend(discoveryEnd, i, WINDOWS);
  }

  /** Mean over the markets of the compounded result of window `i`. */
  function WindowMean(
    make: Series -> Rule, markets: seq<Series>, bars: nat, discoveryEnd: nat, i: nat, cost: real): real
    requires Discoverable(markets, bars, discoveryEnd) && i < WINDOWS && Costs(cost, cost)
  {
    BordersInRange(discoveryEnd, i);
    BordersInRange(discoveryEnd, i + 1);
    Average(Nets(make, markets, bars, Border(discoveryEnd, i), Border(discoveryEnd, i + 1), cost))
  }

  function WindowMeans(
    make: Series -> Rule, markets: seq<Series>, bars: nat, discoveryEnd: nat, cost: real): (means: seq<real>)
    requires Discoverable(markets, bars, discoveryEnd) && Costs(cost, cost)
  {
    seq(WINDOWS, i requires 0 <= i < WINDOWS => WindowMean(make, markets, bars, discoveryEnd, i, cost))
  }

  /** Price changes of all markets over window `i`. */
  function Moves(markets: seq<Series>, bars: nat, discoveryEnd: nat, i: nat): seq<real>
    requires Discoverable(markets, bars, discoveryEnd) && i < WINDOWS && WindowSize(discoveryEnd) > 0
  {
    BordersInRange(discoveryEnd, i);
    BordersInRange(discoveryEnd, i + 1);
    seq(|markets|, m requires 0 <= m < |markets| =>
      markets[m][Border(discoveryEnd, i + 1) - 1].c / markets[m][Border(discoveryEnd, i)].c - 1.0)
  }

  function Regimes(markets: seq<Series>, bars: nat, discoveryEnd: nat): seq<bool>
    requires Discoverable(markets, bars, discoveryEnd) && WindowSize(discoveryEnd) > 0
  {
    seq(WINDOWS, i requires 0 <= i < WINDOWS => Average(Moves(markets, bars, discoveryEnd, i)) > 0.0)
  }

  function Positives(xs: seq<real>): nat {
    if xs == [] then 0 else Positives(xs[..|xs| - 1]) + if xs[|xs| - 1] > 0.0 then 1 else 0
  }

  /** The values whose regime is the wanted one. */
  function Selected(xs: seq<real>, up: seq<bool>, want: bool): seq<real>
    requires |xs| == |up|
  {
    if xs == [] then []
    else
      var n := |xs| - 1;
      Selected(xs[..n], up[..n], want) + if up[n] == want then [xs[n]] else []
  }

  function RegimeTest(base: seq<real>, up: seq<bool>): bool
    requires |base| == |up|
  {
    var rising, falling := Selected(base, up, true), Selected(base, up, false);
    |rising| > 0 && |falling| > 0 && Average(rising) > 0.0 && Average(falling) > 0.0
  }

  function Discovery(make: Series -> Rule, markets: seq<Series>, bars: nat, discoveryEnd: nat): bool
    requires Discoverable(markets, bars, discoveryEnd) && WindowSize(discoveryEnd) > 0
  {
    var base := WindowMeans(make, markets, bars, discoveryEnd, BASE_COST);
    var stress := WindowMeans(make, markets, bars, discoveryEnd, STRESS_COST);
    && Positives(base) >= 4
    && RegimeTest(base, Regimes(markets, bars, discoveryEnd))
    && Positives(stress) >= 4
  }

  /** All trades of all markets over [start, end), one market after another. */
  function Pooled(make: Series -> Rule, markets: seq<Series>, bars: nat, start: nat, end: nat, cost: real): seq<real>
    requires Aligned(markets, bars) && end <= bars && Costs(cost, cost)
  {
    if markets == [] then []
    else
      var n := |markets| - 1;
      Pooled(make, markets[..n], bars, start, end, cost) + MarketReturns(make, markets[n], start, end, cost)
  }

  function Holdout(
    make: Series -> Rule, markets: seq<Series>, bars: nat, discoveryEnd: nat, pValue: real, alpha: real): bool
    requires Discoverable(markets, bars, discoveryEnd)
  {
    var trades := Pooled(make, markets, bars, discoveryEnd, bars, BASE_COST);
    var stressed := Pooled(make, markets, bars, discoveryEnd, bars, STRESS_COST);
    Average(trades) > 0.0 && |trades| >= 30 && pValue < alpha && Average(stressed) > 0.0
  }

  // ----- Stress is sound -----

  lemma DearerMarket(make: Series -> Rule, s: Series, start: nat, end: nat, low: real, high: real)
    requires PositiveCloses(s) && end <= |s| && 0.0 <= low <= high < 1.0
    ensures NoBetter(MarketReturns(make, s, start, end, high), MarketReturns(make, s, start, end, low))
  {
    hide Returns, Spans, NoBetter, PositiveCloses;
    DearerRunReturnsNoMore(make(s), s, start, end, low, low, high, high);
  }

  lemma NoBetterJoins(a: seq<real>, b: seq<real>, c: seq<real>, d: seq<real>)
    requires NoBetter(a, b) && NoBetter(c, d)
    ensures NoBetter(a + c, b + d)
  {
  }

  lemma DearerNets(make: Series -> Rule, markets: seq<Series>, bars: nat, start: nat, end: nat, low: real, high: real)
    requires Aligned(markets, bars) && end <= bars && 0.0 <= low <= high < 1.0
    ensures NoLarger(Nets(make, markets, bars, start, end, high), Nets(make, markets, bars, start, end, low))
  {
    hide MarketReturns, Compound;
    forall m | 0 <= m < |markets|
      ensures Net(MarketReturns(make, markets[m], start, end, high)) <=
        Net(MarketReturns(make, markets[m], start, end, low))
    {
      DearerMarket(make, markets[m], start, end, low, high);
      CompoundMonotone(MarketReturns(make, markets[m], start, end, high),
        MarketReturns(make, markets[m], start, end, low));
    }
  }

  lemma DearerWindow(make: Series -> Rule, markets: seq<Series>, bars: nat, d: nat, i: nat, low: real, high: real)
    requires Discoverable(markets, bars, d) && i < WINDOWS && 0.0 <= low <= high < 1.0
    ensures WindowMean(make, markets, bars, d, i, high) <= WindowMean(make, markets, bars, d, i, low)
  {
    hide Border, Nets, Average, Aligned;
    BordersInRange(d, i);
    BordersInRange(d, i + 1);
    var start, end := Border(d, i), Border(d, i + 1);
    DearerNets(make, markets, bars, start, end, low, high);
    AverageMonotone(Nets(make, markets, bars, start, end, high), Nets(make, markets, bars, start, end, low));
    hide NoLarger;
  }

  lemma DearerWindows(make: Series -> Rule, markets: seq<Series>, bars: nat, d: nat, low: real, high: real)
    requires Discoverable(markets, bars, d) && 0.0 <= low <= high < 1.0
    ensures NoLarger(WindowMeans(make, markets, bars, d, high), WindowMeans(make, markets, bars, d, low))
  {
    hide WindowMean, Discoverable;
    forall i | 0 <= i < WINDOWS
      ensures WindowMean(make, markets, bars, d, i, high) <= WindowMean(make, markets, bars, d, i, low)
    {
      DearerWindow(make, markets, bars, d, i, low, high);
    }
  }

  lemma {:induction false} PositivesMonotone(low: seq<real>, high: seq<real>)
    requires NoLarger(low, high)
    ensures Positives(low) <= Positives(high)
    decreases |low|
  {
    if |low| > 0 {
      PositivesMonotone(low[..|low| - 1], high[..|high| - 1]);
    }
  }

  lemma {:induction false} DearerPool(
    make: Series -> Rule, markets: seq<Series>, bars: nat, start: nat, end: nat, low: real, high: real)
    requires Aligned(markets, bars) && end <= bars && 0.0 <= low <= high < 1.0
    ensures NoBetter(Pooled(make, markets, bars, start, end, high), Pooled(make, markets, bars, start, end, low))
    decreases |markets|
  {
    hide MarketReturns;
    if |markets| > 0 {
      var n := |markets| - 1;
      var s := markets[n];
      DearerPool(make, markets[..n], bars, start, end, low, high);
      DearerMarket(make, s, start, end, low, high);
      NoBetterJoins(Pooled(make, markets[..n], bars, start, end, high),
        Pooled(make, markets[..n], bars, start, end, low),
        MarketReturns(make, s, start, end, high), MarketReturns(make, s, start, end, low));
    }
  }

  /**
   Higher costs never turn a losing window into a winning one, nor lower the number of pooled trades; so the windows
   that win under stress are among those that win at base costs, and a positive stressed mean forces a positive base
   mean.
   */
  lemma StressIsSound(make: Series -> Rule, markets: seq<Series>, bars: nat, discoveryEnd: nat, low: real, high: real)
    requires Discoverable(markets, bars, discoveryEnd) && 0.0 <= low <= high < 1.0
    ensures var stress, base := WindowMeans(make, markets, bars, discoveryEnd, high),
      WindowMeans(make, markets, bars, discoveryEnd, low);
      Positives(stress) <= Positives(base) && forall i :: 0 <= i < WINDOWS && stress[i] > 0.0 ==> base[i] > 0.0
    ensures var stressed, trades := Pooled(make, markets, bars, discoveryEnd, bars, high),
      Pooled(make, markets, bars, discoveryEnd, bars, low);
      |stressed| == |trades| && Average(stressed) <= Average(trades)
  {
    DearerWindows(make, markets, bars, discoveryEnd, low, high);
    PositivesMonotone(WindowMeans(make, markets, bars, discoveryEnd, high),
      WindowMeans(make, markets, bars, discoveryEnd, low));
    DearerPool(make, markets, bars, discoveryEnd, bars, low, high);
    hide WindowMean, Pooled, Average;
    AverageMonotone(Pooled(make, markets, bars, discoveryEnd, bars, high),
      Pooled(make, markets, bars, discoveryEnd, bars, low));
  }

  /**
   The base window count and the base holdout mean decide nothing: the stress tests beside them already imply them.
   */
  lemma BaseTestsAreImplied(
    make: Series -> Rule, markets: seq<Series>, bars: nat, discoveryEnd: nat, pValue: real, alpha: real)
    requires Discoverable(markets, bars, discoveryEnd) && WindowSize(discoveryEnd) > 0
    ensures Discovery(make, markets, bars, discoveryEnd) <==>
      && RegimeTest(WindowMeans(make, markets, bars, discoveryEnd, BASE_COST), Regimes(markets, bars, discoveryEnd))
      && Positives(WindowMeans(make, markets, bars, discoveryEnd, STRESS_COST)) >= 4
    ensures Holdout(make, markets, bars, discoveryEnd, pValue, alpha) <==>
      && |Pooled(make, markets, bars, discoveryEnd, bars, STRESS_COST)| >= 30 && pValue < alpha
      && Average(Pooled(make, markets, bars, discoveryEnd, bars, STRESS_COST)) > 0.0
  {
    StressIsSound(make, markets, bars, discoveryEnd, BASE_COST, STRESS_COST);
    hide WindowMeans, Pooled, Average, RegimeTest, Regimes, Positives;
  }

  // ----- Discovery does not see the holdout -----

  ghost predicate SamePast(markets: seq<Series>, others: seq<Series>, n: nat) {
    && |markets| == |others|
    && forall m :: 0 <= m < |markets| ==>
         n <= |markets[m]| && n <= |others[m]| && markets[m][..n] == others[m][..n]
  }

  lemma NetsIgnoreLaterBars(make: Series -> Rule, markets: seq<Series>, bars: nat, others: seq<Series>, otherBars: nat,
                            n: nat, start: nat, end: nat, cost: real)
    requires Causal(make) && Aligned(markets, bars) && Aligned(others, otherBars) && SamePast(markets, others, n)
    requires end <= n <= bars && n <= otherBars && Costs(cost, cost)
    ensures Nets(make, markets, bars, start, end, cost) == Nets(make, others, otherBars, start, end, cost)
  {
    hide Causal;
    hide MarketReturns, Net;
    forall m | 0 <= m < |markets|
      ensures MarketReturns(make, markets[m], start, end, cost) == MarketReturns(make, others[m], start, end, cost)
    {
      ReturnsIgnoreLaterBars(make, markets[m], others[m], n, start, end, cost);
    }
  }

  lemma ReturnsIgnoreLaterBars(make: Series -> Rule, s: Series, t: Series, n: nat, start: nat, end: nat, cost: real)
    requires Causal(make) && PositiveCloses(s) && PositiveCloses(t) && end <= n <= |s| && n <= |t| && s[..n] == t[..n]
    requires Costs(cost, cost)
    ensures MarketReturns(make, s, start, end, cost) == MarketReturns(make, t, start, end, cost)
  {
    hide Causal;
    assert s[..end] == s[..n][..end] == t[..n][..end] == t[..end];
    RunIgnoresLaterBars(make, s, t, start, end, cost, cost);
    hide Returns, Spans;
  }

  lemma MeansIgnoreLaterBars(make: Series -> Rule, markets: seq<Series>, bars: nat, others: seq<Series>, otherBars: nat,
                             d: nat, cost: real)
    requires Causal(make) && Discoverable(markets, bars, d) && Discoverable(others, otherBars, d)
      && SamePast(markets, others, d)
    requires Costs(cost, cost)
    ensures WindowMeans(make, markets, bars, d, cost) == WindowMeans(make, others, otherBars, d, cost)
  {
    hide Causal;
    forall i | 0 <= i < WINDOWS
      ensures WindowMean(make, markets, bars, d, i, cost) == WindowMean(make, others, otherBars, d, i, cost)
    {
      BordersInRange(d, i);
      BordersInRange(d, i + 1);
      hide Border, Nets, Average;
      NetsIgnoreLaterBars(make, markets, bars, others, otherBars, d, Border(d, i), Border(d, i + 1), cost);
    }
    hide WindowMean;
  }

  lemma RegimesIgnoreLaterBars(markets: seq<Series>, bars: nat, others: seq<Series>, otherBars: nat, d: nat)
    requires Discoverable(markets, bars, d) && Discoverable(others, otherBars, d) && SamePast(markets, others, d)
    requires WindowSize(d) > 0
    ensures Regimes(markets, bars, d) == Regimes(others, otherBars, d)
  {
    forall i | 0 <= i < WINDOWS ensures Moves(markets, bars, d, i) == Moves(others, otherBars, d, i) {
      MovesIgnoreLaterBars(markets, bars, others, otherBars, d, i);
    }
    hide Moves, Average, WindowSize;
    assert forall i :: 0 <= i < WINDOWS ==> Regimes(markets, bars, d)[i] == Regimes(others, otherBars, d)[i];
  }

  /** For a causal rule, discovery decides the same whatever the holdout bars are, and however many. */
  lemma DiscoveryIgnoresHoldout(
    make: Series -> Rule, markets: seq<Series>, bars: nat, others: seq<Series>, otherBars: nat, d: nat)
    requires Causal(make) && Discoverable(markets, bars, d) && Discoverable(others, otherBars, d)
      && SamePast(markets, others, d)
    requires WindowSize(d) > 0
    ensures Discovery(make, markets, bars, d) == Discovery(make, others, otherBars, d)
  {
    hide Causal, WindowMeans, Regimes, WindowSize, RegimeTest;
    MeansIgnoreLaterBars(make, markets, bars, others, otherBars, d, BASE_COST);
    MeansIgnoreLaterBars(make, markets, bars, others, otherBars, d, STRESS_COST);
    RegimesIgnoreLaterBars(markets, bars, others, otherBars, d);
  }

  lemma MovesIgnoreLaterBars(markets: seq<Series>, bars: nat, others: seq<Series>, otherBars: nat, d: nat, i: nat)
    requires Discoverable(markets, bars, d) && Discoverable(others, otherBars, d) && SamePast(markets, others, d)
    requires WindowSize(d) > 0 && i < WINDOWS
    ensures Moves(markets, bars, d, i) == Moves(others, otherBars, d, i)
  {
    BordersInRange(d, i);
    BordersInRange(d, i + 1);
    var first, last := Border(d, i), Border(d, i + 1) - 1;
    assert first <= last;
    hide Border;
    forall m | 0 <= m < |markets| ensures markets[m][first] == others[m][first] && markets[m][last] == others[m][last] {
      SameBars(markets[m], others[m], d);
    }
  }
}
