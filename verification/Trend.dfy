/**
 The two trend indicators of the screen (`adx` and `supertrend` in scripts/offline-ohlcv-catalog-screen.js): definitions
 per bar, the loops that fill their columns, their ranges, and that they read no later bar.
 */
module Trend {
  import opened Prelude
  import opened Indicators
  import opened IndicatorLoops

  // ----- Directional movement -----

  function PlusMove(s: Series, i: nat): real
    requires 1 <= i < |s|
  {
    var up, down := s[i].h - s[i - 1].h, s[i - 1].l - s[i].l;
    if up > down && up > 0.0 then up else 0.0
  }

  function MinusMove(s: Series, i: nat): real
    requires 1 <= i < |s|
  {
    var up, down := s[i].h - s[i - 1].h, s[i - 1].l - s[i].l;
    if down > up && down > 0.0 then down else 0.0
  }

  function PlusMoves(s: Series): seq<real> {
    seq(|s|, i requires 0 <= i < |s| => if i == 0 then 0.0 else PlusMove(s, i))
  }

  function MinusMoves(s: Series): seq<real> {
    seq(|s|, i requires 0 <= i < |s| => if i == 0 then 0.0 else MinusMove(s, i))
  }

  /** One step of Wilder's running sum: a share of one in `p` leaves, the new value enters. */
  function SmoothStep(sum: real, x: real, p: Period): real {
    sum - sum / p as real + x
  }

  /** The running sum after bar `i`; the first bar does not count. */
  function SmoothedAt(xs: seq<real>, p: Period, i: nat): real
    requires i < |xs|
  {
    if i == 0 then 0.0 else SmoothStep(SmoothedAt(xs, p, i - 1), xs[i], p)
  }

  function Percent(part: real, whole: real): Option<real> {
    if whole == 0.0 then None else Some(100.0 * part / whole)
  }

  function PlusAt(s: Series, p: Period, i: nat): Option<real>
    requires i < |s|
  {
    Percent(SmoothedAt(PlusMoves(s), p, i), SmoothedAt(TrueRanges(s), p, i))
  }

  function MinusAt(s: Series, p: Period, i: nat): Option<real>
    requires i < |s|
  {
    Percent(SmoothedAt(MinusMoves(s), p, i), SmoothedAt(TrueRanges(s), p, i))
  }

  /** 100 |plus - minus| / (plus + minus), with a divisor of one where the sum is zero. */
  function Spread(plus: Option<real>, minus: Option<real>): Option<real> {
    if plus.None? || minus.None? then None
    else
      var sum := plus.value + minus.value;
      Some(100.0 * Abs(plus.value - minus.value) / if sum == 0.0 then 1.0 else sum)
  }

  function SpreadAt(s: Series, p: Period, i: nat): Option<real>
    requires i < |s|
  {
    Spread(PlusAt(s, p, i), MinusAt(s, p, i))
  }

  function AverageStep(average: Option<real>, x: Option<real>, p: Period): Option<real> {
    if average.None? || x.None? then None else Some(WilderStep(average.value, x.value, p))
  }

  /** Wilder's average of the spreads from bar `p` on; once undefined it stays undefined. */
  function AdxAt(s: Series, p: Period, i: nat): Option<real>
    requires p <= i < |s|
    decreases i
  {
    if i == p then SpreadAt(s, p, i) else AverageStep(AdxAt(s, p, i - 1), SpreadAt(s, p, i), p)
  }

  datatype Adx = Adx(plus: Column, minus: Column, adx: Column)

  function PlusEntry(s: Series, p: Period, i: nat): Option<real>
    requires i < |s|
  {
    if i < p then None else PlusAt(s, p, i)
  }

  function MinusEntry(s: Series, p: Period, i: nat): Option<real>
    requires i < |s|
  {
    if i < p then None else MinusAt(s, p, i)
  }

  function AdxEntry(s: Series, p: Period, i: nat): Option<real>
    requires i < |s|
  {
    if i < 2 * p then None else AdxAt(s, p, i)
  }

  function AdxColumns(s: Series, p: Period): Adx {
    Adx(seq(|s|, i requires 0 <= i < |s| => PlusEntry(s, p, i)),
        seq(|s|, i requires 0 <= i < |s| => MinusEntry(s, p, i)),
        seq(|s|, i requires 0 <= i < |s| => AdxEntry(s, p, i)))
  }

  /** Before bar `p` no entry is defined, before bar `2 * p` no average. */
  lemma EntriesUnfold(s: Series, p: Period, i: nat)
    requires i < |s|
    ensures PlusEntry(s, p, i) == if i < p then None else PlusAt(s, p, i)
    ensures MinusEntry(s, p, i) == if i < p then None else MinusAt(s, p, i)
    ensures AdxEntry(s, p, i) == if i < 2 * p then None else AdxAt(s, p, i)
  {
    hide PlusAt, MinusAt, AdxAt;
  }

  lemma SumsUnfold(s: Series, p: Period, i: nat)
    requires 1 <= i < |s|
    ensures SmoothedAt(TrueRanges(s), p, i) == SmoothStep(SmoothedAt(TrueRanges(s), p, i - 1), TrueRanges(s)[i], p)
    ensures SmoothedAt(PlusMoves(s), p, i) == SmoothStep(SmoothedAt(PlusMoves(s), p, i - 1), PlusMove(s, i), p)
    ensures SmoothedAt(MinusMoves(s), p, i) == SmoothStep(SmoothedAt(MinusMoves(s), p, i - 1), MinusMove(s, i), p)
    ensures PlusAt(s, p, i) == Percent(SmoothedAt(PlusMoves(s), p, i), SmoothedAt(TrueRanges(s), p, i))
    ensures MinusAt(s, p, i) == Percent(SmoothedAt(MinusMoves(s), p, i), SmoothedAt(TrueRanges(s), p, i))
  {
    hide SmoothStep, TrueRange, PlusMove, MinusMove, Percent;
  }

  lemma AdxUnfolds(s: Series, p: Period, i: nat)
    requires p <= i < |s|
    ensures AdxAt(s, p, i) ==
      var dx := Spread(PlusAt(s, p, i), MinusAt(s, p, i));
      if i == p then dx else AverageStep(AdxAt(s, p, i - 1), dx, p)
  {
    hide PlusAt, MinusAt, Spread, AverageStep;
  }

  lemma NothingSmoothed(s: Series, p: Period)
    requires s != []
    ensures SmoothedAt(TrueRanges(s), p, 0) == SmoothedAt(PlusMoves(s), p, 0) == SmoothedAt(MinusMoves(s), p, 0) == 0.0
  {
  }

  /** The loop over the bars, given the true ranges. */
  method AdxOf(s: Series, t: seq<real>, p: Period) returns (columns: Adx)
    requires t == TrueRanges(s)
    ensures columns == AdxColumns(s, p)
  {
    hide TrueRange, PlusMove, MinusMove, SmoothStep, Percent, Spread, AverageStep, SmoothedAt, PlusAt, MinusAt, AdxAt,
      PlusEntry, MinusEntry, AdxEntry;
    if s != [] {
      NothingSmoothed(s, p);
      EntriesUnfold(s, p, 0);
    }
    var plus, minus := new Option<real>[|s|](_ => None), new Option<real>[|s|](_ => None);
    var adx := new Option<real>[|s|](_ => None);
    var sTr, sP, sM := 0.0, 0.0, 0.0;
    var a: Option<real> := None;
    var i := 1;
    while i < |s|
      invariant i == 1 || i <= |s|
      invariant s != [] ==> sTr == SmoothedAt(t, p, i - 1) && sP == SmoothedAt(PlusMoves(s), p, i - 1)
      invariant s != [] ==> sM == SmoothedAt(MinusMoves(s), p, i - 1)
      invariant i > p ==> a == AdxAt(s, p, i - 1)
      invariant forall k :: 0 <= k < i && k < |s| ==> plus[k] == PlusEntry(s, p, k)
      invariant forall k :: 0 <= k < i && k < |s| ==> minus[k] == MinusEntry(s, p, k)
      invariant forall k :: 0 <= k < i && k < |s| ==> adx[k] == AdxEntry(s, p, k)
      invariant forall k :: i <= k < |s| ==> plus[k] == minus[k] == adx[k] == None
    {
      SumsUnfold(s, p, i);
      EntriesUnfold(s, p, i);
      sTr := SmoothStep(sTr, t[i], p);
      sP := SmoothStep(sP, PlusMove(s, i), p);
      sM := SmoothStep(sM, MinusMove(s, i), p);
      if i >= p {
        plus[i], minus[i] := Percent(sP, sTr), Percent(sM, sTr);
        AdxUnfolds(s, p, i);
        var dx := Spread(plus[i], minus[i]);
        a := if i == p then dx else AverageStep(a, dx, p);
        if i >= 2 * p { adx[i] := a; }
      }
      i := i + 1;
    }
    columns := Adx(plus[..], minus[..], adx[..]);
  }

  /** The running sum is a decaying weighted sum of the values. */
  lemma {:induction false} SmoothedIsWeighted(xs: seq<real>, p: Period, i: nat)
    requires i < |xs|
    ensures SmoothedAt(xs, p, i) == p as real * Weighted(xs, 1.0 / p as real, i, i)
  {
    hide Weighted, Decayed, SmoothStep;
    var k := 1.0 / p as real;
    if i == 0 {
      NothingWeighted(xs, k);
    } else {
      SmoothedIsWeighted(xs, p, i - 1);
      WeightedDecays(xs, k, i - 1, i - 1);
      LastWeight(xs, k, i);
      SmoothShare(p, k, SmoothedAt(xs, p, i - 1), Weighted(xs, k, i - 1, i - 1), xs[i]);
    }
  }

  lemma NothingWeighted(xs: seq<real>, k: real)
    requires xs != []
    ensures Weighted(xs, k, 0, 0) == 0.0
  {
  }

  lemma LastWeight(xs: seq<real>, k: real, i: nat)
    requires 0 < i < |xs|
    ensures Weighted(xs, k, i, i) == Weighted(xs, k, i, i - 1) + k * xs[i]
  {
    assert Power(1.0 - k, 0) == 1.0;
  }

  lemma SmoothShare(p: Period, k: real, sum: real, w: real, x: real)
    requires k == 1.0 / p as real && sum == p as real * w
    ensures SmoothStep(sum, x, p) == p as real * (Decayed(1.0 - k, w) + k * x)
  {
    var n := p as real;
    Shares(n, k, w);
    Shares(n, k, x);
    assert n * ((1.0 - k) * w + k * x) == n * w - n * k * w + n * k * x;
  }

  lemma Shares(n: real, k: real, w: real)
    requires n > 0.0 && k == 1.0 / n
    ensures n * k * w == w && n * w / n == w
  {
    assert n * k == 1.0;
    assert (n * k) * w == 1.0 * w;
  }

  /** A bar moves in at most one direction, and no further than its true range. */
  lemma MovesWithinRange(s: Series, i: nat)
    requires WellFormed(s) && 1 <= i < |s|
    ensures PlusMove(s, i) >= 0.0 && MinusMove(s, i) >= 0.0 && PlusMove(s, i) + MinusMove(s, i) <= TrueRange(s, i)
  {
    assert WellFormedBar(s[i]) && WellFormedBar(s[i - 1]);
  }

  lemma SmoothStepMonotone(a: real, b: real, x: real, y: real, p: Period)
    requires 0.0 <= a <= b && 0.0 <= x <= y
    ensures 0.0 <= SmoothStep(a, x, p) <= SmoothStep(b, y, p)
  {
    ShareIsPart(a, p as real);
    ShareIsPart(b - a, p as real);
    assert b / p as real == a / p as real + (b - a) / p as real;
  }

  lemma ShareIsPart(a: real, p: real)
    requires a >= 0.0 && p >= 1.0
    ensures 0.0 <= a / p <= a
  {
    var q := a / p;
    assert q * p == a;
    assert q < 0.0 ==> q * p < 0.0;
    assert q >= 0.0 ==> q * p >= q;
  }

  lemma SmoothStepAdds(a: real, b: real, x: real, y: real, p: Period)
    ensures SmoothStep(a, x, p) + SmoothStep(b, y, p) == SmoothStep(a + b, x + y, p)
  {
    assert a / p as real + b / p as real == (a + b) / p as real;
  }

  /** Smoothed movements stay within the smoothed range, both together. */
  lemma {:induction false} SmoothedMovesWithinRange(s: Series, p: Period, i: nat)
    requires WellFormed(s) && i < |s|
    ensures var plus, minus, range := SmoothedAt(PlusMoves(s), p, i), SmoothedAt(MinusMoves(s), p, i),
      SmoothedAt(TrueRanges(s), p, i);
      0.0 <= plus && 0.0 <= minus && plus + minus <= range
  {
    hide TrueRange, PlusMove, MinusMove, SmoothStep;
    if i > 0 {
      var plus, minus, range := SmoothedAt(PlusMoves(s), p, i - 1), SmoothedAt(MinusMoves(s), p, i - 1),
        SmoothedAt(TrueRanges(s), p, i - 1);
      SmoothedMovesWithinRange(s, p, i - 1);
      MovesWithinRange(s, i);
      SmoothStepMonotone(plus, plus, PlusMove(s, i), PlusMove(s, i), p);
      SmoothStepMonotone(minus, minus, MinusMove(s, i), MinusMove(s, i), p);
      SmoothStepAdds(plus, minus, PlusMove(s, i), MinusMove(s, i), p);
      SmoothStepMonotone(plus + minus, range, PlusMove(s, i) + MinusMove(s, i), TrueRange(s, i), p);
    }
  }

  predicate InPercent(x: Option<real>) {
    x.Some? ==> 0.0 <= x.value <= 100.0
  }

  lemma SpreadInPercent(plus: Option<real>, minus: Option<real>)
    requires InPercent(plus) && InPercent(minus)
    ensures InPercent(Spread(plus, minus))
  {
    if plus.Some? && minus.Some? {
      var sum := plus.value + minus.value;
      if sum > 0.0 {
        FractionBounds(Abs(plus.value - minus.value), sum);
      }
    }
  }

  lemma WilderStepBetween(average: real, x: real, p: Period)
    requires 0.0 <= average <= 100.0 && 0.0 <= x <= 100.0
    ensures 0.0 <= WilderStep(average, x, p) <= 100.0
  {
    Scaled(average, (p - 1) as real);
    DivideBetween(average * (p - 1) as real + x, p as real);
  }

  lemma Scaled(average: real, n: real)
    requires 0.0 <= average <= 100.0 && n >= 0.0
    ensures 0.0 <= average * n <= 100.0 * n
  {
    assert (100.0 - average) * n >= 0.0;
  }

  lemma DivideBetween(x: real, d: real)
    requires 0.0 <= x <= 100.0 * d && d > 0.0
    ensures 0.0 <= x / d <= 100.0
  {
    var q := x / d;
    assert q * d == x;
    assert q < 0.0 ==> q * d < 0.0;
    assert q > 100.0 ==> (q - 100.0) * d > 0.0;
  }

  /** On well-formed bars both directional indices, and the average of their spreads, stay within [0, 100]. */
  lemma {:induction false} AdxBounds(s: Series, p: Period, i: nat)
    requires WellFormed(s) && p <= i < |s|
    ensures InPercent(PlusAt(s, p, i)) && InPercent(MinusAt(s, p, i)) && InPercent(AdxAt(s, p, i))
    decreases i
  {
    hide SmoothedAt, PlusMove, MinusMove, TrueRange, WilderStep, Spread;
    var plus, minus, range := SmoothedAt(PlusMoves(s), p, i), SmoothedAt(MinusMoves(s), p, i),
      SmoothedAt(TrueRanges(s), p, i);
    SmoothedMovesWithinRange(s, p, i);
    if range > 0.0 {
      FractionBounds(plus, range);
      FractionBounds(minus, range);
    }
    SpreadInPercent(PlusAt(s, p, i), MinusAt(s, p, i));
    if i > p {
      AdxBounds(s, p, i - 1);
      if AdxAt(s, p, i - 1).Some? && SpreadAt(s, p, i).Some? {
        WilderStepBetween(AdxAt(s, p, i - 1).value, SpreadAt(s, p, i).value, p);
      }
    }
  }

  // ----- Supertrend -----

  /** The trailing bands (None where infinite) and the direction they leave. */
  datatype Bands = Bands(upper: Option<real>, lower: Option<real>, direction: int)

  const NO_BANDS: Bands := Bands(None, None, 1)

  function Middle(b: Bar): real { (b.h + b.l) / 2.0 }

  /** An upper band only comes down, until a close above it lets it start over. */
  function UpperBand(upper: Option<real>, candidate: real, before: real): real {
    if upper.None? || candidate < upper.value || before > upper.value then candidate else upper.value
  }

  /** A lower band only goes up, until a close below it lets it start over. */
  function LowerBand(lower: Option<real>, candidate: real, before: real): real {
    if lower.None? || candidate > lower.value || before < lower.value then candidate else lower.value
  }

  function BandStep(bands: Bands, s: Series, i: nat, width: real): Bands
    requires 1 <= i < |s|
  {
    var upper := UpperBand(bands.upper, Middle(s[i]) + width, s[i - 1].c);
    var lower := LowerBand(bands.lower, Middle(s[i]) - width, s[i - 1].c);
    Bands(Some(upper), Some(lower), if s[i].c > upper then 1 else if s[i].c < lower then -1 else bands.direction)
  }

  /** Half the distance between the bands: a multiple of the average true range. */
  function Width(m: real, range: real): real { m * range }

  function BandsAt(s: Series, p: Period, m: real, i: nat): Bands
    requires p <= i < |s|
    decreases i
  {
    BandStep(if i == p then NO_BANDS else BandsAt(s, p, m, i - 1), s, i, Width(m, WilderAt(TrueRanges(s), p, i)))
  }

  function Directions(s: Series, p: Period, m: real): seq<int> {
    seq(|s|, i requires 0 <= i < |s| => if i < p then 0 else BandsAt(s, p, m, i).direction)
  }

  lemma BandsUnfold(s: Series, p: Period, m: real, i: nat)
    requires p <= i < |s|
    ensures BandsAt(s, p, m, i) ==
      BandStep(if i == p then NO_BANDS else BandsAt(s, p, m, i - 1), s, i, Width(m, WilderAt(TrueRanges(s), p, i)))
  {
  }

  /** The loop over the bars, given the average true ranges. */
  method SupertrendOf(s: Series, a: Column, p: Period, m: real) returns (directions: seq<int>)
    requires a == ColumnOf(Atr(p), s)
    ensures directions == Directions(s, p, m)
  {
    hide BandStep, WilderAt, TrueRange, Width, BandsAt;
    assert forall i :: p <= i < |s| ==> a[i] == Some(WilderAt(TrueRanges(s), p, i));
    var dir := new int[|s|](_ => 0);
    var bands := NO_BANDS;
    var i := p;
    while i < |s|
      invariant i == p || p < i <= |s|
      invariant bands == if i == p then NO_BANDS else BandsAt(s, p, m, i - 1)
      invariant forall k :: 0 <= k < i && k < |s| ==> dir[k] == if k < p then 0 else BandsAt(s, p, m, k).direction
      invariant forall k :: i <= k < |s| ==> dir[k] == 0
    {
      BandsUnfold(s, p, m, i);
      bands := BandStep(bands, s, i, Width(m, a[i].value));
      dir[i] := bands.direction;
      i := i + 1;
    }
    directions := dir[..];
  }

  function Upper(s: Series, p: Period, m: real, i: nat): real
    requires p <= i < |s|
  {
    BandsAt(s, p, m, i).upper.value
  }

  function Lower(s: Series, p: Period, m: real, i: nat): real
    requires p <= i < |s|
  {
    BandsAt(s, p, m, i).lower.value
  }

  /** How far above the middle of a bar its upper band would start over. */
  function WidthAt(s: Series, p: Period, m: real, i: nat): real
    requires p <= i < |s|
  {
    Width(m, WilderAt(TrueRanges(s), p, i))
  }

  lemma BandsMove(s: Series, p: Period, m: real, i: nat)
    requires p < i < |s|
    ensures Upper(s, p, m, i) ==
      UpperBand(Some(Upper(s, p, m, i - 1)), Middle(s[i]) + WidthAt(s, p, m, i), s[i - 1].c)
    ensures Lower(s, p, m, i) ==
      LowerBand(Some(Lower(s, p, m, i - 1)), Middle(s[i]) - WidthAt(s, p, m, i), s[i - 1].c)
  {
    hide Middle, WilderAt, TrueRange, Width, UpperBand, LowerBand;
    BandsUnfold(s, p, m, i);
  }

  /**
   Over any stretch of bars whose closes stay at or below the upper band, the band is the least of where it began and of
   all the places it could have started over at.
   */
  lemma {:induction false} UpperBandIsRunningMinimum(s: Series, p: Period, m: real, i: nat, j: nat)
    requires p <= i <= j < |s| && forall k :: i <= k < j ==> s[k].c <= Upper(s, p, m, k)
    ensures Upper(s, p, m, j) <= Upper(s, p, m, i)
    ensures forall k :: i < k <= j ==> Upper(s, p, m, j) <= Middle(s[k]) + WidthAt(s, p, m, k)
    ensures Upper(s, p, m, j) == Upper(s, p, m, i) ||
      exists k :: i < k <= j && Upper(s, p, m, j) == Middle(s[k]) + WidthAt(s, p, m, k)
    decreases j
  {
    hide Upper, Middle, WidthAt;
    if i < j {
      UpperBandIsRunningMinimum(s, p, m, i, j - 1);
      BandsMove(s, p, m, j);
    }
  }

  /** The mirror image below: the greatest, while closes stay at or above the lower band. */
  lemma {:induction false} LowerBandIsRunningMaximum(s: Series, p: Period, m: real, i: nat, j: nat)
    requires p <= i <= j < |s| && forall k :: i <= k < j ==> s[k].c >= Lower(s, p, m, k)
    ensures Lower(s, p, m, j) >= Lower(s, p, m, i)
    ensures forall k :: i < k <= j ==> Lower(s, p, m, j) >= Middle(s[k]) - WidthAt(s, p, m, k)
    ensures Lower(s, p, m, j) == Lower(s, p, m, i) ||
      exists k :: i < k <= j && Lower(s, p, m, j) == Middle(s[k]) - WidthAt(s, p, m, k)
    decreases j
  {
    hide Lower, Middle, WidthAt;
    if i < j {
      LowerBandIsRunningMaximum(s, p, m, i, j - 1);
      BandsMove(s, p, m, j);
    }
  }

  predicate BreaksUp(s: Series, p: Period, m: real, i: nat)
    requires p <= i < |s|
  {
    s[i].c > Upper(s, p, m, i)
  }

  predicate Breaks(s: Series, p: Period, m: real, i: nat)
    requires p <= i < |s|
  {
    BreaksUp(s, p, m, i) || s[i].c < Lower(s, p, m, i)
  }

  lemma DirectionMoves(s: Series, p: Period, m: real, i: nat)
    requires p <= i < |s|
    ensures BandsAt(s, p, m, i).direction ==
      if BreaksUp(s, p, m, i) then 1
      else if Breaks(s, p, m, i) then -1
      else if i == p then 1 else BandsAt(s, p, m, i - 1).direction
  {
    hide Middle, WilderAt, TrueRange, Width, UpperBand, LowerBand;
    BandsUnfold(s, p, m, i);
  }

  /** No close from bar `from` on, up to `to`, is beyond a band. */
  ghost predicate Calm(s: Series, p: Period, m: real, from: nat, to: nat)
    requires p <= from && to <= |s|
  {
    forall k :: from <= k < to ==> !Breaks(s, p, m, k)
  }

  lemma CalmGrows(s: Series, p: Period, m: real, from: nat, to: nat)
    requires p <= from <= to < |s|
    ensures Calm(s, p, m, from, to + 1) <==> Calm(s, p, m, from, to) && !Breaks(s, p, m, to)
  {
    hide Breaks;
  }

  /** The last close beyond a band was one above the upper band, or no close was ever beyond a band. */
  ghost predicate LastBreakIsUp(s: Series, p: Period, m: real, j: nat)
    requires p <= j < |s|
  {
    || Calm(s, p, m, p, j + 1)
    || exists i :: p <= i <= j && BreaksUp(s, p, m, i) && Calm(s, p, m, i + 1, j + 1)
  }

  lemma FirstBreak(s: Series, p: Period, m: real)
    requires p < |s|
    ensures LastBreakIsUp(s, p, m, p) <==> BreaksUp(s, p, m, p) || !Breaks(s, p, m, p)
  {
    hide Upper, Lower;
  }

  lemma LastBreakMoves(s: Series, p: Period, m: real, j: nat)
    requires p < j < |s|
    ensures LastBreakIsUp(s, p, m, j) <==>
      BreaksUp(s, p, m, j) || (!Breaks(s, p, m, j) && LastBreakIsUp(s, p, m, j - 1))
  {
    hide BreaksUp, Breaks, Calm;
    NothingIsCalm(s, p, m, j + 1);
    forall i | p <= i <= j
      ensures Calm(s, p, m, i, j + 1) <==> Calm(s, p, m, i, j) && !Breaks(s, p, m, j)
    {
      CalmGrows(s, p, m, i, j);
    }
    if LastBreakIsUp(s, p, m, j) && !Calm(s, p, m, p, j + 1) {
      var i :| p <= i <= j && BreaksUp(s, p, m, i) && Calm(s, p, m, i + 1, j + 1);
      assert i < j ==> Calm(s, p, m, i + 1, j);
    }
    if !Breaks(s, p, m, j) && LastBreakIsUp(s, p, m, j - 1) && !Calm(s, p, m, p, j) {
      var i :| p <= i <= j - 1 && BreaksUp(s, p, m, i) && Calm(s, p, m, i + 1, j);
      assert Calm(s, p, m, i + 1, j + 1);
    }
  }

  lemma NothingIsCalm(s: Series, p: Period, m: real, i: nat)
    requires p <= i <= |s|
    ensures Calm(s, p, m, i, i)
  {
  }

  /** The trend is what the last close beyond a band says, and up before there is one. */
  lemma {:induction false} TrendIsLastBreak(s: Series, p: Period, m: real, j: nat)
    requires p <= j < |s|
    ensures BandsAt(s, p, m, j).direction == if LastBreakIsUp(s, p, m, j) then 1 else -1
    decreases j
  {
    hide BandsAt, Breaks, BreaksUp, LastBreakIsUp;
    DirectionMoves(s, p, m, j);
    if p < j {
      TrendIsLastBreak(s, p, m, j - 1);
      LastBreakMoves(s, p, m, j);
      UpIsBreak(s, p, m, j);
    } else {
      FirstBreak(s, p, m);
      UpIsBreak(s, p, m, p);
    }
  }

  lemma UpIsBreak(s: Series, p: Period, m: real, i: nat)
    requires p <= i < |s|
    ensures BreaksUp(s, p, m, i) ==> Breaks(s, p, m, i)
  {
  }

  // ----- No look-ahead -----

  lemma MovesLookBack(s: Series, t: Series, n: nat)
    requires n <= |s| && n <= |t| && s[..n] == t[..n]
    ensures forall i :: 0 <= i < n ==> PlusMoves(s)[i] == PlusMoves(t)[i] && MinusMoves(s)[i] == MinusMoves(t)[i]
    ensures forall i :: 0 <= i < n ==> TrueRanges(s)[i] == TrueRanges(t)[i]
  {
    SameBars(s, t, n);
    ChangesLookBack(s, t, n);
    SameAt(TrueRanges(s), TrueRanges(t), n);
  }

  lemma {:induction false} SmoothedLooksBack(xs: seq<real>, ys: seq<real>, p: Period, i: nat)
    requires i < |xs| && i < |ys| && forall j :: 0 <= j <= i ==> xs[j] == ys[j]
    ensures SmoothedAt(xs, p, i) == SmoothedAt(ys, p, i)
  {
    hide SmoothStep;
    if i > 0 {
      SmoothedLooksBack(xs, ys, p, i - 1);
    }
  }

  lemma IndicesLookBack(s: Series, t: Series, p: Period, i: nat)
    requires i < |s| && i < |t| && s[..i + 1] == t[..i + 1]
    ensures PlusAt(s, p, i) == PlusAt(t, p, i) && MinusAt(s, p, i) == MinusAt(t, p, i)
  {
    hide PlusMove, MinusMove, TrueRange, SmoothedAt, Percent;
    MovesLookBack(s, t, i + 1);
    SmoothedLooksBack(PlusMoves(s), PlusMoves(t), p, i);
    SmoothedLooksBack(MinusMoves(s), MinusMoves(t), p, i);
    SmoothedLooksBack(TrueRanges(s), TrueRanges(t), p, i);
  }

  /** The trend indicators at a bar are the same in any two series that agree up to and including it. */
  lemma {:induction false} TrendLooksBack(s: Series, t: Series, p: Period, m: real, i: nat)
    requires p <= i < |s| && i < |t| && s[..i + 1] == t[..i + 1]
    ensures PlusAt(s, p, i) == PlusAt(t, p, i) && MinusAt(s, p, i) == MinusAt(t, p, i)
      && AdxAt(s, p, i) == AdxAt(t, p, i)
    ensures BandsAt(s, p, m, i) == BandsAt(t, p, m, i)
    decreases i
  {
    hide PlusAt, MinusAt, Spread, AverageStep, BandStep, WilderAt, TrueRange, Width;
    IndicesLookBack(s, t, p, i);
    MovesLookBack(s, t, i + 1);
    WilderLooksBack(TrueRanges(s), TrueRanges(t), p, i);
    SameBars(s, t, i + 1);
    SameStep(s, t, i);
    if i > p {
      assert s[..i] == s[..i + 1][..i] == t[..i + 1][..i] == t[..i];
      assert s[..i - 1 + 1] == t[..i - 1 + 1];
      TrendLooksBack(s, t, p, m, i - 1);
    }
  }

  lemma SameStep(s: Series, t: Series, i: nat)
    requires 1 <= i < |s| && i < |t| && s[i] == t[i] && s[i - 1] == t[i - 1]
    ensures forall bands, width :: BandStep(bands, s, i, width) == BandStep(bands, t, i, width)
  {
  }
}
