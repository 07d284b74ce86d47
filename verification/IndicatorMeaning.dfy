/**
 What the indicator values of the screen measure, as equations between a value and the bars it stands for: no division,
 no recursion and no loop of the source occurs in them.
 */
module IndicatorMeaning {
  import opened Numbers
  import opened Prelude
  import opened Indicators
  import opened IndicatorLoops
  import opened Trend

  lemma Divided(n: real, d: real)
    requires d != 0.0
    ensures d * (n / d) == n
  {
  }

  // ----- Single bars -----

  /** An interval that holds all prices of bar `i` and the close before it. */
  predicate Holds(s: Series, i: nat, lo: real, hi: real)
    requires i < |s|
  {
    && lo <= s[i].l && s[i].h <= hi
    && (i > 0 ==> lo <= s[i - 1].c <= hi)
  }

  /** The true range is the length of the shortest interval that holds the bar and the close before it. */
  lemma TrueRangeIsShortestHold(s: Series, i: nat)
    requires i < |s| && s[i].l <= s[i].h
    ensures exists lo, hi :: Holds(s, i, lo, hi) && hi - lo == TrueRange(s, i)
    ensures forall lo, hi :: Holds(s, i, lo, hi) ==> hi - lo >= TrueRange(s, i)
  {
    var lo := if i > 0 && s[i - 1].c < s[i].l then s[i - 1].c else s[i].l;
    var hi := if i > 0 && s[i - 1].c > s[i].h then s[i - 1].c else s[i].h;
    assert Holds(s, i, lo, hi) && hi - lo == TrueRange(s, i);
  }

  /** Three typical prices are the high, the low and the close; two middles are the high and the low. */
  lemma TypicalIsMean(b: Bar)
    ensures 3.0 * Typical(b) == b.h + b.l + b.c && 2.0 * Middle(b) == b.h + b.l
  {
  }

  /** The volume counts for a rise, against a fall, and not at all for an unchanged close. */
  lemma VolumeIsSigned(s: Series, i: nat)
    requires 0 < i < |s|
    ensures ObvAt(s, 0) == 0.0
    ensures var change := ObvAt(s, i) - ObvAt(s, i - 1);
      && (s[i].c > s[i - 1].c ==> change == s[i].v)
      && (s[i].c < s[i - 1].c ==> change == -s[i].v)
      && (s[i].c == s[i - 1].c ==> change == 0.0)
  {
    assert Sum(SignedVolumes(s), 0, 0) == 0.0;
    assert SignedVolumes(s)[0] == 0.0 && SignedVolumes(s)[i] == SignedVolume(s, i);
  }

  /** Money flows with the typical price: all of it on the side it moved to, none when it stood. */
  lemma FlowGoesOneWay(s: Series, i: nat)
    requires 0 < i < |s|
    ensures var now, before := Typical(s[i]), Typical(s[i - 1]);
      && Flows(s, true)[i] == (if now > before then now * s[i].v else 0.0)
      && Flows(s, false)[i] == (if now < before then now * s[i].v else 0.0)
    ensures Flows(s, true)[0] == 0.0 && Flows(s, false)[0] == 0.0
  {
    hide Typical;
  }

  /** A move counts for the side that moved further, and only if it moved out. */
  lemma MoveGoesOneWay(s: Series, i: nat)
    requires 0 < i < |s|
    ensures var up, down := s[i].h - s[i - 1].h, s[i - 1].l - s[i].l;
      && (PlusMove(s, i) != 0.0 ==> PlusMove(s, i) == up && up > down && up > 0.0 && MinusMove(s, i) == 0.0)
      && (MinusMove(s, i) != 0.0 ==> MinusMove(s, i) == down && down > up && down > 0.0)
      && (PlusMove(s, i) == 0.0 && MinusMove(s, i) == 0.0 ==> up == down || (up <= 0.0 && down <= 0.0))
  {
  }

  // ----- Windows -----

  /** A mean taken as often as it has bars makes up their sum; it is defined from bar `p - 1` on. */
  lemma MeanMakesUpSum(xs: seq<real>, p: Period, i: nat)
    requires i < |xs|
    ensures Mean(xs, p, i).Some? <==> i >= p - 1
    ensures i >= p - 1 ==> p as real * Mean(xs, p, i).value == Sum(xs, i + 1 - p, i + 1)
  {
    hide Sum;
    if i >= p - 1 {
      Divided(Sum(xs, i + 1 - p, i + 1), p as real);
    }
  }

  /** The extremes before a bar are those of the `p` bars before it, the bar itself not among them. */
  lemma ExtremesBefore(s: Series, p: Period, i: nat)
    requires p <= i < |s|
    ensures var high, low := ValueAt(PrevHigh(p), s, i), ValueAt(PrevLow(p), s, i);
      && high.Some? && low.Some?
      && (forall k :: i - p <= k < i ==> low.value <= s[k].l && s[k].h <= high.value)
      && (exists k :: i - p <= k < i && s[k].h == high.value)
      && (exists k :: i - p <= k < i && s[k].l == low.value)
  {
    ExtremesBound(Highs(s), i - p, i);
    ExtremesBound(Lows(s), i - p, i);
    hide Greatest, Least;
    assert forall k :: i - p <= k < i ==> Highs(s)[k] == s[k].h && Lows(s)[k] == s[k].l;
    var k :| i - p <= k < i && Highs(s)[k] == Greatest(Highs(s), i - p, i);
    var j :| i - p <= j < i && Lows(s)[j] == Least(Lows(s), i - p, i);
    assert s[k].h == Highs(s)[k] && s[j].l == Lows(s)[j];
  }

  lemma HighestIs(s: Series, lo: nat, hi: nat, high: real)
    requires lo < hi <= |s|
    requires (forall k :: lo <= k < hi ==> s[k].h <= high) && exists k :: lo <= k < hi && s[k].h == high
    ensures Greatest(Highs(s), lo, hi) == high
  {
    hide Greatest;
    ExtremesBound(Highs(s), lo, hi);
    var k :| lo <= k < hi && s[k].h == high;
    assert Highs(s)[k] == high;
  }

  lemma LowestIs(s: Series, lo: nat, hi: nat, low: real)
    requires lo < hi <= |s|
    requires (forall k :: lo <= k < hi ==> s[k].l >= low) && exists k :: lo <= k < hi && s[k].l == low
    ensures Least(Lows(s), lo, hi) == low
  {
    hide Least;
    ExtremesBound(Lows(s), lo, hi);
    var k :| lo <= k < hi && s[k].l == low;
    assert Lows(s)[k] == low;
  }

  /**
   The stochastic divides its window's range as the close does: at 0 it is the lowest low, at 100 the highest high.
   */
  lemma StochDividesRange(s: Series, p: Period, i: nat, high: real, low: real)
    requires p - 1 <= i < |s|
    requires forall k :: i + 1 - p <= k < i + 1 ==> low <= s[k].l && s[k].h <= high
    requires exists k :: i + 1 - p <= k < i + 1 && s[k].h == high
    requires exists k :: i + 1 - p <= k < i + 1 && s[k].l == low
    ensures high > low ==> (high - low) * StochAt(s, p, i) == 100.0 * (s[i].c - low)
    ensures high <= low ==> StochAt(s, p, i) == 50.0
  {
    hide Greatest, Least;
    HighestIs(s, i + 1 - p, i + 1, high);
    LowestIs(s, i + 1 - p, i + 1, low);
    if high > low {
      Divided(100.0 * (s[i].c - low), high - low);
    }
  }

  /** The money-flow index is the share of the rising flow in percent, and 100 without falling flow. */
  lemma MfiIsShare(s: Series, p: Period, i: nat)
    requires p <= i < |s|
    ensures var rising, falling := Sum(Flows(s, true), i + 1 - p, i + 1), Sum(Flows(s, false), i + 1 - p, i + 1);
      && (falling == 0.0 ==> MfiAt(s, p, i) == Some(100.0))
      && (falling > 0.0 && rising >= 0.0 ==>
            MfiAt(s, p, i).Some? && (rising + falling) * MfiAt(s, p, i).value == 100.0 * rising)
  {
    hide Sum, Flow, FlowIndex;
    var rising, falling := Sum(Flows(s, true), i + 1 - p, i + 1), Sum(Flows(s, false), i + 1 - p, i + 1);
    FlowIndexCases(rising, falling);
  }

  lemma FlowIndexCases(rising: real, falling: real)
    ensures falling == 0.0 ==> FlowIndex(rising, falling) == Some(100.0)
    ensures falling > 0.0 && rising >= 0.0 ==>
      FlowIndex(rising, falling).Some? && (rising + falling) * FlowIndex(rising, falling).value == 100.0 * rising
  {
    hide FlowIndex;
    if falling > 0.0 && rising >= 0.0 {
      ShareOfFlow(rising, falling);
    } else if falling == 0.0 {
      OnlyRising(rising);
    }
  }

  lemma OnlyRising(rising: real)
    ensures FlowIndex(rising, 0.0) == Some(100.0)
  {
  }

  lemma ShareOfFlow(rising: real, falling: real)
    requires falling > 0.0 && rising >= 0.0
    ensures FlowIndex(rising, falling).Some?
    ensures (rising + falling) * FlowIndex(rising, falling).value == 100.0 * rising
  {
    var ratio := rising / falling;
    Divided(rising, falling);
    NotNegative(rising, falling);
    assert rising + falling == falling * (1.0 + ratio);
    Divided(100.0, 1.0 + ratio);
    var part := 100.0 / (1.0 + ratio);
    assert (1.0 + ratio) * part == 100.0;
    Regroup(falling, 1.0 + ratio, part);
  }

  lemma NotNegative(n: real, d: real)
    requires n >= 0.0 && d > 0.0
    ensures n / d >= 0.0
  {
    Divided(n, d);
  }

  lemma Regroup(a: real, b: real, c: real)
    ensures (a * b) * c == a * (b * c)
  {
  }

  /** The volume-weighted price times the volume of its window is what was traded in it. */
  lemma VwapMakesUpTurnover(s: Series, p: Period, i: nat)
    requires p - 1 <= i < |s|
    ensures var volume := Sum(Volumes(s), i + 1 - p, i + 1);
      && (VwapAt(s, p, i).Some? <==> volume > 0.0)
      && (volume > 0.0 ==> volume * VwapAt(s, p, i).value == Sum(PriceVolumes(s), i + 1 - p, i + 1))
  {
    hide Sum, Typical;
    var volume := Sum(Volumes(s), i + 1 - p, i + 1);
    if volume > 0.0 {
      Divided(Sum(PriceVolumes(s), i + 1 - p, i + 1), volume);
    }
  }

  // ----- Averages with a memory -----

  /** The exponential average starts at the first value, and moves two parts in `p + 1` of the way to each new one. */
  lemma EmaMovesToValue(xs: seq<real>, p: Period, i: nat)
    requires i + 1 < |xs|
    ensures EmaAt(xs, Smoothing(p), 0) == xs[0]
    ensures (p as real + 1.0) * (EmaAt(xs, Smoothing(p), i + 1) - EmaAt(xs, Smoothing(p), i)) ==
      2.0 * (xs[i + 1] - EmaAt(xs, Smoothing(p), i))
  {
    EmaStep(xs, Smoothing(p), i);
    EmaStarts(xs, Smoothing(p));
    hide EmaAt;
    var k, before := Smoothing(p), EmaAt(xs, Smoothing(p), i);
    Divided(2.0, p as real + 1.0);
    assert EmaAt(xs, k, i + 1) - before == k * (xs[i + 1] - before);
    Regroup(p as real + 1.0, k, xs[i + 1] - before);
  }

  lemma EmaStarts(xs: seq<real>, k: real)
    requires xs != []
    ensures EmaAt(xs, k, 0) == xs[0]
  {
  }

  /**
   Wilder's average starts at the mean of the first `p` values, and moves one part in `p` of the way to each new one.
   */
  lemma WilderMovesToValue(xs: seq<real>, p: Period, i: nat)
    requires p - 1 <= i && i + 1 < |xs|
    ensures p as real * WilderAt(xs, p, p - 1) == Sum(xs, 0, p)
    ensures p as real * (WilderAt(xs, p, i + 1) - WilderAt(xs, p, i)) == xs[i + 1] - WilderAt(xs, p, i)
  {
    Divided(Sum(xs, 0, p), p as real);
    var before := WilderAt(xs, p, i);
    assert WilderAt(xs, p, i + 1) == WilderStep(before, xs[i + 1], p);
    hide Sum, WilderAt;
    Divided(before * (p - 1) as real + xs[i + 1], p as real);
    assert before * (p - 1) as real == before * p as real - before;
  }

  // ----- Direction -----

  /** The directional indices are the smoothed moves in percent of the smoothed ranges. */
  lemma IndexIsPercent(s: Series, p: Period, i: nat)
    requires i < |s|
    ensures var range := SmoothedAt(TrueRanges(s), p, i);
      && (PlusAt(s, p, i).Some? <==> range != 0.0) && (MinusAt(s, p, i).Some? <==> range != 0.0)
      && (range != 0.0 ==>
            && range * PlusAt(s, p, i).value == 100.0 * SmoothedAt(PlusMoves(s), p, i)
            && range * MinusAt(s, p, i).value == 100.0 * SmoothedAt(MinusMoves(s), p, i))
  {
    hide SmoothedAt, TrueRange, PlusMove, MinusMove;
    var range := SmoothedAt(TrueRanges(s), p, i);
    if range != 0.0 {
      Divided(100.0 * SmoothedAt(PlusMoves(s), p, i), range);
      Divided(100.0 * SmoothedAt(MinusMoves(s), p, i), range);
    }
  }

  /** The spread of two indices is their distance in percent of their sum; two zero indices have none. */
  lemma SpreadIsPercent(plus: real, minus: real)
    ensures var spread := Spread(Some(plus), Some(minus));
      && spread.Some?
      && (plus + minus != 0.0 && plus >= minus ==> (plus + minus) * spread.value == 100.0 * (plus - minus))
      && (plus + minus != 0.0 && plus <= minus ==> (plus + minus) * spread.value == 100.0 * (minus - plus))
      && (plus == 0.0 && minus == 0.0 ==> spread.value == 0.0)
  {
    if plus + minus != 0.0 {
      Divided(100.0 * Abs(plus - minus), plus + minus);
    }
  }

  /**
   The average spread starts at bar `p` with the spread there, and moves one part in `p` of the way to each new one.
   */
  lemma AdxMovesToSpread(s: Series, p: Period, i: nat)
    requires p <= i && i + 1 < |s|
    ensures AdxAt(s, p, p) == SpreadAt(s, p, p)
    ensures AdxAt(s, p, i).Some? && SpreadAt(s, p, i + 1).Some? ==>
      && AdxAt(s, p, i + 1).Some?
      && p as real * (AdxAt(s, p, i + 1).value - AdxAt(s, p, i).value) ==
           SpreadAt(s, p, i + 1).value - AdxAt(s, p, i).value
  {
    hide SpreadAt;
    var before, spread := AdxAt(s, p, i), SpreadAt(s, p, i + 1);
    assert AdxAt(s, p, i + 1) == AverageStep(before, spread, p);
    hide AdxAt;
    if before.Some? && spread.Some? {
      Divided(before.value * (p - 1) as real + spread.value, p as real);
      assert before.value * (p - 1) as real == before.value * p as real - before.value;
    }
  }

  /** A band starts over a multiple of the average true range away from the middle of its bar. */
  lemma BandStartsOver(s: Series, p: Period, m: real, i: nat)
    requires p <= i < |s|
    ensures WidthAt(s, p, m, i) == m * WilderAt(TrueRanges(s), p, i)
    ensures Upper(s, p, m, p) == Middle(s[p]) + WidthAt(s, p, m, p)
    ensures Lower(s, p, m, p) == Middle(s[p]) - WidthAt(s, p, m, p)
  {
    hide Middle, WilderAt, TrueRanges;
    BandsUnfold(s, p, m, p);
  }
}
