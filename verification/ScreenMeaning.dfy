/**
 The discovery and holdout tests of the screen in plain sums and counts: which bars a window holds, what makes a window
 rise or win, and how many windows and trades it takes.
 */
module ScreenMeaning {
  import opened Indicators
  import opened TradeLoop
  import opened TradeLaws
  import opened TradeMeaning
  import opened Screen

  // ----- Means and sums -----

  lemma PositiveMean(a: seq<real>)
    ensures Average(a) > 0.0 <==> Sum(a, 0, |a|) > 0.0
  {
    AverageMakesUpSum(a);
    hide Sum;
    if a != [] {
      SameSign(|a| as real, Average(a));
    } else {
      SumOfNone();
    }
  }

  lemma SumOfNone()
    ensures Sum([], 0, 0) == 0.0
  {
  }

  lemma SameSign(n: real, x: real)
    requires n > 0.0
    ensures n * x > 0.0 <==> x > 0.0
  {
  }

  /** The number of positive values, as the size of the set of their places. */
  lemma {:induction false} PositivesAreCounted(xs: seq<real>)
    ensures Positives(xs) == |set i | 0 <= i < |xs| && xs[i] > 0.0|
    decreases |xs|
  {
    if |xs| > 0 {
      var n := |xs| - 1;
      PositivesAreCounted(xs[..n]);
      var fewer, all := set i | 0 <= i < n && xs[..n][i] > 0.0, set i | 0 <= i < |xs| && xs[i] > 0.0;
      assert all == fewer + if xs[n] > 0.0 then {n} else {};
    }
  }

  /** The sum of the values whose regime is the wanted one. */
  function SumWhere(xs: seq<real>, up: seq<bool>, want: bool): real
    requires |xs| == |up|
  {
    if xs == [] then 0.0 else (if up[0] == want then xs[0] else 0.0) + SumWhere(xs[1..], up[1..], want)
  }

  lemma {:induction false} SumWhereLast(xs: seq<real>, up: seq<bool>, want: bool)
    requires |xs| == |up| > 0
    ensures var n := |xs| - 1;
      SumWhere(xs, up, want) == SumWhere(xs[..n], up[..n], want) + if up[n] == want then xs[n] else 0.0
  {
    if |xs| > 1 {
      var n := |xs| - 1;
      SumWhereLast(xs[1..], up[1..], want);
      assert xs[1..][..n - 1] == xs[..n][1..] && up[1..][..n - 1] == up[..n][1..];
    }
  }

  lemma {:induction false} SumOfShorter(xs: seq<real>, ys: seq<real>, n: nat)
    requires n <= |xs| && n <= |ys| && xs[..n] == ys[..n]
    ensures Sum(xs, 0, n) == Sum(ys, 0, n)
    decreases n
  {
    if n > 0 {
      assert xs[n - 1] == xs[..n][n - 1] == ys[..n][n - 1] == ys[n - 1];
      assert xs[..n - 1] == xs[..n][..n - 1] == ys[..n][..n - 1] == ys[..n - 1];
      SumOfShorter(xs, ys, n - 1);
    }
  }

  lemma {:induction false} SelectedSum(xs: seq<real>, up: seq<bool>, want: bool)
    requires |xs| == |up|
    ensures Sum(Selected(xs, up, want), 0, |Selected(xs, up, want)|) == SumWhere(xs, up, want)
    decreases |xs|
  {
    if |xs| > 0 {
      var n := |xs| - 1;
      SelectedSum(xs[..n], up[..n], want);
      SumWhereLast(xs, up, want);
      var fewer, all := Selected(xs[..n], up[..n], want), Selected(xs, up, want);
      SumOfShorter(fewer, all, |fewer|);
    }
  }

  /** Each regime occurs as soon as its values sum up to more than nothing. */
  lemma RegimeTestIsTwoSums(base: seq<real>, up: seq<bool>)
    requires |base| == |up|
    ensures RegimeTest(base, up) <==> SumWhere(base, up, true) > 0.0 && SumWhere(base, up, false) > 0.0
  {
    hide SumWhere, Average;
    SelectedSum(base, up, true);
    SelectedSum(base, up, false);
    PositiveMean(Selected(base, up, true));
    PositiveMean(Selected(base, up, false));
    SumOfNone();
  }

  // ----- Windows -----

  /** The six windows are equally long and end at the holdout, as long as fits into the bars after the first 201. */
  lemma WindowsFromTheEnd(d: nat, i: nat)
    requires i <= 6
    ensures Border(d, i) == d - (6 - i) * WindowSize(d)
    ensures 6 * WindowSize(d) <= d - 201 < 6 * WindowSize(d) + 6
  {
  }

  /** What a market returns over the bars from `start` on, up to `end`, in percent. */
  function MarketNet(make: Series -> Rule, s: Series, start: nat, end: nat, cost: real): real
    requires PositiveCloses(s) && end <= |s| && Costs(cost, cost)
  {
    100.0 * Compound(Returns(s, Spans(make(s), s, start, end), cost, cost)) - 100.0
  }

  /** The results of all markets over the same bars, added up. */
  function Total(make: Series -> Rule, markets: seq<Series>, bars: nat, start: nat, end: nat, cost: real): real
    requires Aligned(markets, bars) && end <= bars && Costs(cost, cost)
  {
    var nets := seq(|markets|, m requires 0 <= m < |markets| => MarketNet(make, markets[m], start, end, cost));
    Sum(nets, 0, |nets|)
  }

  lemma TotalOfNets(make: Series -> Rule, markets: seq<Series>, bars: nat, start: nat, end: nat, cost: real)
    requires Aligned(markets, bars) && end <= bars && Costs(cost, cost)
    ensures var nets := Nets(make, markets, bars, start, end, cost);
      |nets| == |markets| && Sum(nets, 0, |nets|) == Total(make, markets, bars, start, end, cost)
  {
    hide Compound, Returns, Spans, Sum, PositiveCloses;
    var nets := Nets(make, markets, bars, start, end, cost);
    assert nets == seq(|markets|, m requires 0 <= m < |markets| => MarketNet(make, markets[m], start, end, cost));
  }

  /** The result of a window, summed over the markets. */
  function WindowTotal(make: Series -> Rule, markets: seq<Series>, bars: nat, d: nat, i: nat, cost: real): real
    requires Discoverable(markets, bars, d) && i < 6 && Costs(cost, cost)
  {
    BordersInRange(d, i);
    BordersInRange(d, i + 1);
    WindowsFromTheEnd(d, i);
    WindowsFromTheEnd(d, i + 1);
    Total(make, markets, bars, d - (6 - i) * WindowSize(d), d - (5 - i) * WindowSize(d), cost)
  }

  lemma WindowWins(make: Series -> Rule, markets: seq<Series>, bars: nat, d: nat, i: nat, cost: real)
    requires Discoverable(markets, bars, d) && i < 6 && Costs(cost, cost)
    ensures |markets| as real * WindowMean(make, markets, bars, d, i, cost) ==
      WindowTotal(make, markets, bars, d, i, cost)
    ensures WindowMean(make, markets, bars, d, i, cost) > 0.0 <==> WindowTotal(make, markets, bars, d, i, cost) > 0.0
  {
    hide Border, WindowSize, Total, Nets, Sum, Average, Aligned;
    BordersInRange(d, i);
    BordersInRange(d, i + 1);
    WindowsFromTheEnd(d, i);
    WindowsFromTheEnd(d, i + 1);
    var nets := Nets(make, markets, bars, Border(d, i), Border(d, i + 1), cost);
    TotalOfNets(make, markets, bars, Border(d, i), Border(d, i + 1), cost);
    AverageMakesUpSum(nets);
    PositiveMean(nets);
  }

  /** The price changes of all markets over a window, from its first close to its last. */
  function Rise(markets: seq<Series>, bars: nat, d: nat, i: nat): real
    requires Discoverable(markets, bars, d) && i < 6 && WindowSize(d) > 0
  {
    BordersInRange(d, i);
    BordersInRange(d, i + 1);
    WindowsFromTheEnd(d, i);
    WindowsFromTheEnd(d, i + 1);
    var first, last := d - (6 - i) * WindowSize(d), d - (5 - i) * WindowSize(d) - 1;
    var moves := seq(|markets|, m requires 0 <= m < |markets| =>
      (markets[m][last].c - markets[m][first].c) / markets[m][first].c);
    Sum(moves, 0, |moves|)
  }

  lemma LessFactor(a: real, x: real, y: real)
    requires a > 0.0 && x < y
    ensures a * x < a * y
  {
    assert a * (y - x) > 0.0;
  }

  lemma SameFactor(a: real, x: real, y: real)
    requires a > 0.0 && a * x == a * y
    ensures x == y
  {
    if x < y {
      LessFactor(a, x, y);
    } else if y < x {
      LessFactor(a, y, x);
    }
  }

  lemma ChangeOfPrice(a: real, b: real)
    requires a > 0.0
    ensures (b - a) / a == b / a - 1.0
  {
    var q := b / a;
    Quotient(b, a);
    Quotient(b - a, a);
    assert a * (q - 1.0) == b - a;
    SameFactor(a, q - 1.0, (b - a) / a);
  }

  lemma WindowRises(markets: seq<Series>, bars: nat, d: nat, i: nat)
    requires Discoverable(markets, bars, d) && i < 6 && WindowSize(d) > 0
    ensures Regimes(markets, bars, d)[i] <==> Rise(markets, bars, d, i) > 0.0
  {
    BordersInRange(d, i);
    BordersInRange(d, i + 1);
    WindowsFromTheEnd(d, i);
    WindowsFromTheEnd(d, i + 1);
    hide Border, WindowSize, Sum, Average;
    var first, last := Border(d, i), Border(d, i + 1) - 1;
    var moves := seq(|markets|, m requires 0 <= m < |markets| =>
      (markets[m][last].c - markets[m][first].c) / markets[m][first].c);
    forall m | 0 <= m < |markets| ensures moves[m] == Moves(markets, bars, d, i)[m] {
      ChangeOfPrice(markets[m][first].c, markets[m][last].c);
    }
    assert moves == Moves(markets, bars, d, i);
    PositiveMean(moves);
  }

  // ----- The two tests -----

  /** The windows whose total over the markets is positive. */
  function Winners(make: Series -> Rule, markets: seq<Series>, bars: nat, d: nat, cost: real): set<int>
    requires Discoverable(markets, bars, d) && Costs(cost, cost)
  {
    set i | 0 <= i < 6 && WindowTotal(make, markets, bars, d, i, cost) > 0.0
  }

  lemma WinnersAreCounted(make: Series -> Rule, markets: seq<Series>, bars: nat, d: nat, cost: real)
    requires Discoverable(markets, bars, d) && Costs(cost, cost)
    ensures Positives(WindowMeans(make, markets, bars, d, cost)) == |Winners(make, markets, bars, d, cost)|
  {
    hide WindowMean, WindowTotal, Discoverable, Positives;
    var means := WindowMeans(make, markets, bars, d, cost);
    PositivesAreCounted(means);
    forall i | 0 <= i < 6 ensures means[i] > 0.0 <==> WindowTotal(make, markets, bars, d, i, cost) > 0.0 {
      WindowWins(make, markets, bars, d, i, cost);
    }
    assert (set i | 0 <= i < |means| && means[i] > 0.0) == Winners(make, markets, bars, d, cost);
  }

  /**
   Discovery: at least four of the six windows win at costs of five basis points and at twice that, and the windows in
   which prices rose together win, and so do those in which they did not.
   */
  lemma DiscoveryMeans(make: Series -> Rule, markets: seq<Series>, bars: nat, d: nat)
    requires Discoverable(markets, bars, d) && WindowSize(d) > 0
    ensures Discovery(make, markets, bars, d) <==>
      var means := WindowMeans(make, markets, bars, d, 0.0005);
      var up := seq(6, i requires 0 <= i < 6 => Rise(markets, bars, d, i) > 0.0);
      && |Winners(make, markets, bars, d, 0.0005)| >= 4 && |Winners(make, markets, bars, d, 0.001)| >= 4
      && SumWhere(means, up, true) > 0.0 && SumWhere(means, up, false) > 0.0
  {
    hide WindowMean, Winners, Rise, RegimeTest, SumWhere, Moves, Discoverable, WindowSize, Average, Positives;
    WinnersAreCounted(make, markets, bars, d, 0.0005);
    WinnersAreCounted(make, markets, bars, d, 0.001);
    var up := seq(6, i requires 0 <= i < 6 => Rise(markets, bars, d, i) > 0.0);
    forall i | 0 <= i < 6 ensures Regimes(markets, bars, d)[i] == up[i] {
      WindowRises(markets, bars, d, i);
    }
    assert Regimes(markets, bars, d) == up;
    RegimeTestIsTwoSums(WindowMeans(make, markets, bars, d, 0.0005), up);
  }
}
