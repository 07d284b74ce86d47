/**
 The indicators of the OHLCV screen (`indicators` in scripts/offline-ohlcv-catalog-screen.js): direct definitions, one
 value per bar, written in terms of the bars up to it. An undefined value (NaN in the source) is None. Prices and
 volumes are reals; rounding is not modelled.
 */
module Indicators {
  import opened Numbers
  import opened Prelude

  datatype Bar = Bar(o: real, h: real, l: real, c: real, v: real)

  type Series = seq<Bar>

  /** What an exchange delivers: positive prices inside the bar's range, volume not negative. */
  predicate WellFormedBar(b: Bar) {
    0.0 < b.l <= b.c <= b.h && b.l <= b.o <= b.h && b.v >= 0.0
  }

  ghost predicate WellFormed(s: Series) {
    forall i :: 0 <= i < |s| ==> WellFormedBar(s[i])
  }

  /** Look-back lengths; every rule uses a positive one. */
  type Period = p: nat | p >= 1 witness 1

  datatype Indicator =
    | Tr
    | Sma(p: Period)
    | Ema(p: Period)
    | VolumeSma(p: Period)
    | Atr(p: Period)
    | PrevHigh(p: Period)
    | PrevLow(p: Period)
    | Stoch(p: Period)
    | Obv
    | ObvSma(p: Period)
    | Mfi(p: Period)
    | Vwap(p: Period)

  // ----- Columns derived from bars -----

  function Closes(s: Series): seq<real> { seq(|s|, i requires 0 <= i < |s| => s[i].c) }

  function Volumes(s: Series): seq<real> { seq(|s|, i requires 0 <= i < |s| => s[i].v) }

  function Highs(s: Series): seq<real> { seq(|s|, i requires 0 <= i < |s| => s[i].h) }

  function Lows(s: Series): seq<real> { seq(|s|, i requires 0 <= i < |s| => s[i].l) }

  function Typical(b: Bar): real {
    (b.h + b.l + b.c) / 3.0
  }

  function PriceVolumes(s: Series): seq<real> { seq(|s|, i requires 0 <= i < |s| => Typical(s[i]) * s[i].v) }

  function Abs(x: real): real { if x < 0.0 then -x else x }

  function TrueRange(s: Series, i: nat): real
    requires i < |s|
  {
    if i == 0 then s[0].h - s[0].l
    else RealMax(RealMax(s[i].h - s[i].l, Abs(s[i].h - s[i - 1].c)), Abs(s[i].l - s[i - 1].c))
  }

  function TrueRanges(s: Series): seq<real> { seq(|s|, i requires 0 <= i < |s| => TrueRange(s, i)) }

  function SignedVolume(s: Series, i: nat): real
    requires i < |s|
  {
    if i == 0 then 0.0
    else if s[i].c > s[i - 1].c then s[i].v
    else if s[i].c < s[i - 1].c then -s[i].v
    else 0.0
  }

  function SignedVolumes(s: Series): seq<real> { seq(|s|, i requires 0 <= i < |s| => SignedVolume(s, i)) }

  /** On-balance volume: the running total of the signed volumes. */
  function ObvAt(s: Series, i: nat): real
    requires i < |s|
  {
    Sum(SignedVolumes(s), 0, i + 1)
  }

  function Obvs(s: Series): seq<real> { seq(|s|, i requires 0 <= i < |s| => ObvAt(s, i)) }

  /** Money flow of bar `i`: positive when the typical price rose, negative when it fell. */
  function Flow(s: Series, i: nat, rising: bool): real
    requires 1 <= i < |s|
  {
    var now, before := Typical(s[i]), Typical(s[i - 1]);
    if (if rising then now > before else now < before) then now * s[i].v else 0.0
  }

  function Flows(s: Series, rising: bool): seq<real> {
    seq(|s|, i requires 0 <= i < |s| => if i == 0 then 0.0 else Flow(s, i, rising))
  }

  // ----- Windows -----

  function Sum(xs: seq<real>, lo: nat, hi: nat): real
    requires lo <= hi <= |xs|
    decreases hi - lo
  {
    if lo == hi then 0.0 else Sum(xs, lo, hi - 1) + xs[hi - 1]
  }

  function Greatest(xs: seq<real>, lo: nat, hi: nat): real
    requires lo < hi <= |xs|
    decreases hi - lo
  {
    if lo + 1 == hi then xs[lo] else RealMax(Greatest(xs, lo, hi - 1), xs[hi - 1])
  }

  function Least(xs: seq<real>, lo: nat, hi: nat): real
    requires lo < hi <= |xs|
    decreases hi - lo
  {
    if lo + 1 == hi then xs[lo] else RealMin(Least(xs, lo, hi - 1), xs[hi - 1])
  }

  function Mean(xs: seq<real>, p: Period, i: nat): Option<real>
    requires i < |xs|
  {
    if i + 1 < p then None else Some(Sum(xs, i + 1 - p, i + 1) / p as real)
  }

  // ----- Smoothed averages -----

  function Power(x: real, n: nat): real {
    if n == 0 then 1.0 else x * Power(x, n - 1)
  }

  /** The contributions of values 1 to `m` to an exponential average at `i`. */
  function Weighted(xs: seq<real>, k: real, i: nat, m: nat): real
    requires m <= i && m < |xs|
  {
    if m == 0 then 0.0 else Weighted(xs, k, i, m - 1) + Contribution(k, Power(1.0 - k, i - m), xs[m])
  }

  function Contribution(k: real, decay: real, x: real): real {
    k * decay * x
  }

  /** Exponential average as a weighted sum: the first value decayed `i` times, each later one with weight `k`. */
  function EmaAt(xs: seq<real>, k: real, i: nat): real
    requires i < |xs|
  {
    Decayed(Power(1.0 - k, i), xs[0]) + Weighted(xs, k, i, i)
  }

  function Decayed(decay: real, x: real): real {
    decay * x
  }

  function Smoothing(p: Period): real {
    2.0 / (p as real + 1.0)
  }

  /** Wilder's average: the mean of the first `p` values, then a weight of one in `p` for each new one. */
  function WilderAt(xs: seq<real>, p: Period, i: nat): real
    requires p - 1 <= i < |xs|
    decreases i
  {
    if i == p - 1 then Sum(xs, 0, p) / p as real else WilderStep(WilderAt(xs, p, i - 1), xs[i], p)
  }

  function WilderStep(average: real, x: real, p: Period): real {
    (average * (p - 1) as real + x) / p as real
  }

  // ----- Values -----

  function StochAt(s: Series, p: Period, i: nat): real
    requires p - 1 <= i < |s|
  {
    var hi, lo := Greatest(Highs(s), i + 1 - p, i + 1), Least(Lows(s), i + 1 - p, i + 1);
    if hi > lo then 100.0 * (s[i].c - lo) / (hi - lo) else 50.0
  }

  /** 100 - 100 / (1 + pos / neg), or 100 without negative flow; None where the source divides by zero. */
  function FlowIndex(pos: real, neg: real): Option<real> {
    if neg == 0.0 then Some(100.0)
    else if 1.0 + pos / neg == 0.0 then None
    else Some(100.0 - 100.0 / (1.0 + pos / neg))
  }

  function MfiAt(s: Series, p: Period, i: nat): Option<real>
    requires p <= i < |s|
  {
    FlowIndex(Sum(Flows(s, true), i + 1 - p, i + 1), Sum(Flows(s, false), i + 1 - p, i + 1))
  }

  function VwapAt(s: Series, p: Period, i: nat): Option<real>
    requires p - 1 <= i < |s|
  {
    var pv, vv := Sum(PriceVolumes(s), i + 1 - p, i + 1), Sum(Volumes(s), i + 1 - p, i + 1);
    if vv > 0.0 then Some(pv / vv) else None
  }

  /** The value of an indicator at bar `i`. */
  function ValueAt(ind: Indicator, s: Series, i: nat): Option<real>
    requires i < |s|
  {
    match ind
    case Tr => Some(TrueRange(s, i))
    case Sma(p) => Mean(Closes(s), p, i)
    case Ema(p) => if i + 1 < p then None else Some(EmaAt(Closes(s), Smoothing(p), i))
    case VolumeSma(p) => Mean(Volumes(s), p, i)
    case Atr(p) => if i + 1 < p then None else Some(WilderAt(TrueRanges(s), p, i))
    case PrevHigh(p) => if i < p then None else Some(Greatest(Highs(s), i - p, i))
    case PrevLow(p) => if i < p then None else Some(Least(Lows(s), i - p, i))
    case Stoch(p) => if i + 1 < p then None else Some(StochAt(s, p, i))
    case Obv => Some(ObvAt(s, i))
    case ObvSma(p) => Mean(Obvs(s), p, i)
    case Mfi(p) => if i < p then None else MfiAt(s, p, i)
    case Vwap(p) => if i + 1 < p then None else VwapAt(s, p, i)
  }

  type Column = seq<Option<real>>

  /** An indicator computed afresh over a whole series. */
  function ColumnOf(ind: Indicator, s: Series): Column {
    seq(|s|, i requires 0 <= i < |s| => ValueAt(ind, s, i))
  }

  // ----- No look-ahead -----

  lemma {:induction false} SumLooksBack(xs: seq<real>, ys: seq<real>, lo: nat, hi: nat)
    requires lo <= hi <= |xs| && hi <= |ys| && xs[..hi] == ys[..hi]
    ensures Sum(xs, lo, hi) == Sum(ys, lo, hi)
    decreases hi
  {
    if lo < hi {
      assert xs[hi - 1] == xs[..hi][hi - 1] == ys[..hi][hi - 1] == ys[hi - 1];
      assert xs[..hi - 1] == xs[..hi][..hi - 1] == ys[..hi - 1];
      SumLooksBack(xs, ys, lo, hi - 1);
    }
  }

  lemma {:induction false} ExtremesLookBack(xs: seq<real>, ys: seq<real>, lo: nat, hi: nat)
    requires lo < hi <= |xs| && hi <= |ys| && forall i :: 0 <= i < hi ==> xs[i] == ys[i]
    ensures Greatest(xs, lo, hi) == Greatest(ys, lo, hi) && Least(xs, lo, hi) == Least(ys, lo, hi)
    decreases hi
  {
    if lo + 1 < hi {
      ExtremesLookBack(xs, ys, lo, hi - 1);
    }
  }

  lemma {:induction false} WeightedLooksBack(xs: seq<real>, ys: seq<real>, k: real, i: nat, m: nat)
    requires m <= i && m < |xs| && m < |ys| && forall j :: 0 <= j <= m ==> xs[j] == ys[j]
    ensures Weighted(xs, k, i, m) == Weighted(ys, k, i, m)
  {
    if m > 0 {
      WeightedLooksBack(xs, ys, k, i, m - 1);
    }
  }

  lemma EmaLooksBack(xs: seq<real>, ys: seq<real>, k: real, i: nat)
    requires i < |xs| && i < |ys| && forall j :: 0 <= j <= i ==> xs[j] == ys[j]
    ensures EmaAt(xs, k, i) == EmaAt(ys, k, i)
  {
    WeightedLooksBack(xs, ys, k, i, i);
  }

  lemma {:induction false} WilderLooksBack(xs: seq<real>, ys: seq<real>, p: Period, i: nat)
    requires p - 1 <= i < |xs| && i < |ys| && forall j :: 0 <= j <= i ==> xs[j] == ys[j]
    ensures WilderAt(xs, p, i) == WilderAt(ys, p, i)
    decreases i
  {
    hide Sum, WilderStep;
    if i == p - 1 {
      assert xs[..p] == ys[..p];
      SumLooksBack(xs, ys, 0, p);
    } else {
      WilderLooksBack(xs, ys, p, i - 1);
    }
  }

  lemma SameBars(s: Series, t: Series, n: nat)
    requires n <= |s| && n <= |t| && s[..n] == t[..n]
    ensures forall i :: 0 <= i < n ==> s[i] == t[i]
  {
    assert forall i :: 0 <= i < n ==> s[i] == s[..n][i] == t[..n][i];
  }

  /** The derived columns of two series that agree up to bar `i` agree up to bar `i`. */
  lemma ColumnsLookBack(s: Series, t: Series, n: nat)
    requires n <= |s| && n <= |t| && s[..n] == t[..n]
    ensures Closes(s)[..n] == Closes(t)[..n] && Volumes(s)[..n] == Volumes(t)[..n]
    ensures Highs(s)[..n] == Highs(t)[..n] && Lows(s)[..n] == Lows(t)[..n]
    ensures PriceVolumes(s)[..n] == PriceVolumes(t)[..n]
  {
    SameBars(s, t, n);
    hide Typical;
    assert forall i :: 0 <= i < n ==> Typical(s[i]) == Typical(t[i]) && PriceVolumes(s)[i] == PriceVolumes(t)[i];
  }

  lemma ChangesLookBack(s: Series, t: Series, n: nat)
    requires n <= |s| && n <= |t| && s[..n] == t[..n]
    ensures TrueRanges(s)[..n] == TrueRanges(t)[..n] && SignedVolumes(s)[..n] == SignedVolumes(t)[..n]
    ensures Flows(s, true)[..n] == Flows(t, true)[..n] && Flows(s, false)[..n] == Flows(t, false)[..n]
  {
    SameBars(s, t, n);
    forall i | 0 <= i < n
      ensures TrueRange(s, i) == TrueRange(t, i) && SignedVolume(s, i) == SignedVolume(t, i)
      ensures forall rising :: i > 0 ==> Flow(s, i, rising) == Flow(t, i, rising)
    {
      assert s[i] == t[i] && (i > 0 ==> s[i - 1] == t[i - 1]);
      hide Typical;
    }
    hide TrueRange, SignedVolume, Flow;
    forall i, rising | 0 <= i < n ensures Flows(s, rising)[i] == Flows(t, rising)[i] {
      if i > 0 {
        assert Flow(s, i, rising) == Flow(t, i, rising);
      }
    }
  }

  lemma ObvsLookBack(s: Series, t: Series, n: nat)
    requires n <= |s| && n <= |t| && s[..n] == t[..n]
    ensures Obvs(s)[..n] == Obvs(t)[..n]
  {
    ChangesLookBack(s, t, n);
    hide SignedVolumes, Sum;
    forall i | 0 <= i < n ensures ObvAt(s, i) == ObvAt(t, i) {
      assert SignedVolumes(s)[..i + 1] == SignedVolumes(s)[..n][..i + 1] == SignedVolumes(t)[..n][..i + 1] ==
        SignedVolumes(t)[..i + 1];
      SumLooksBack(SignedVolumes(s), SignedVolumes(t), 0, i + 1);
    }
  }

  lemma SameAt(xs: seq<real>, ys: seq<real>, n: nat)
    requires n <= |xs| && n <= |ys| && xs[..n] == ys[..n]
    ensures forall j :: 0 <= j < n ==> xs[j] == ys[j]
  {
    assert forall j :: 0 <= j < n ==> xs[j] == xs[..n][j] == ys[..n][j] == ys[j];
  }

  lemma MeanLooksBack(xs: seq<real>, ys: seq<real>, p: Period, i: nat)
    requires i < |xs| && i < |ys| && xs[..i + 1] == ys[..i + 1]
    ensures Mean(xs, p, i) == Mean(ys, p, i)
  {
    if p <= i + 1 {
      SumLooksBack(xs, ys, i + 1 - p, i + 1);
    }
    hide Sum;
  }

  lemma WindowsLookBack(ind: Indicator, s: Series, t: Series, i: nat)
    requires i < |s| && i < |t| && s[..i + 1] == t[..i + 1]
    requires ind.PrevHigh? || ind.PrevLow? || ind.Stoch?
    ensures ValueAt(ind, s, i) == ValueAt(ind, t, i)
  {
    var n := i + 1;
    ColumnsLookBack(s, t, n);
    SameBars(s, t, n);
    hide Closes, Volumes, Highs, Lows, PriceVolumes, Greatest, Least;
    SameAt(Highs(s), Highs(t), n);
    SameAt(Lows(s), Lows(t), n);
    if ind.Stoch? && ind.p <= n {
      ExtremesLookBack(Highs(s), Highs(t), n - ind.p, n);
      ExtremesLookBack(Lows(s), Lows(t), n - ind.p, n);
    } else if !ind.Stoch? && ind.p <= i {
      ExtremesLookBack(Highs(s), Highs(t), i - ind.p, i);
      ExtremesLookBack(Lows(s), Lows(t), i - ind.p, i);
    }
  }

  lemma VolumesLookBack(ind: Indicator, s: Series, t: Series, i: nat)
    requires i < |s| && i < |t| && s[..i + 1] == t[..i + 1]
    requires ind.Obv? || ind.Mfi? || ind.Vwap?
    ensures ValueAt(ind, s, i) == ValueAt(ind, t, i)
  {
    var n := i + 1;
    ColumnsLookBack(s, t, n);
    ChangesLookBack(s, t, n);
    hide Closes, Volumes, Highs, Lows, PriceVolumes, TrueRanges, SignedVolumes, Flows, Sum, FlowIndex;
    if ind.Obv? {
      SumLooksBack(SignedVolumes(s), SignedVolumes(t), 0, n);
    } else if ind.p <= n {
      SumLooksBack(Flows(s, true), Flows(t, true), n - ind.p, n);
      SumLooksBack(Flows(s, false), Flows(t, false), n - ind.p, n);
      SumLooksBack(PriceVolumes(s), PriceVolumes(t), n - ind.p, n);
      SumLooksBack(Volumes(s), Volumes(t), n - ind.p, n);
    }
  }

  lemma AveragesLookBack(ind: Indicator, s: Series, t: Series, i: nat)
    requires i < |s| && i < |t| && s[..i + 1] == t[..i + 1]
    requires ind.Ema? || ind.Atr?
    ensures ValueAt(ind, s, i) == ValueAt(ind, t, i)
  {
    var n := i + 1;
    ColumnsLookBack(s, t, n);
    ChangesLookBack(s, t, n);
    hide Closes, Volumes, Highs, Lows, PriceVolumes, TrueRanges, SignedVolumes, Flows, WilderAt, EmaAt, Smoothing;
    SameAt(Closes(s), Closes(t), n);
    SameAt(TrueRanges(s), TrueRanges(t), n);
    if ind.Ema? {
      EmaLooksBack(Closes(s), Closes(t), Smoothing(ind.p), i);
    } else if ind.p <= n {
      WilderLooksBack(TrueRanges(s), TrueRanges(t), ind.p, i);
    }
  }

  /** No look-ahead: the value at bar `i` is the same in any two series that agree up to and including bar `i`. */
  lemma NoLookAhead(ind: Indicator, s: Series, t: Series, i: nat)
    requires i < |s| && i < |t| && s[..i + 1] == t[..i + 1]
    ensures ValueAt(ind, s, i) == ValueAt(ind, t, i)
  {
    if ind.PrevHigh? || ind.PrevLow? || ind.Stoch? {
      WindowsLookBack(ind, s, t, i);
    } else if ind.Obv? || ind.Mfi? || ind.Vwap? {
      VolumesLookBack(ind, s, t, i);
    } else if ind.Ema? || ind.Atr? {
      AveragesLookBack(ind, s, t, i);
    } else if ind.Tr? {
      ChangesLookBack(s, t, i + 1);
      SameAt(TrueRanges(s), TrueRanges(t), i + 1);
      hide TrueRange;
      assert TrueRanges(s)[i] == TrueRanges(t)[i];
    } else {
      ColumnsLookBack(s, t, i + 1);
      ObvsLookBack(s, t, i + 1);
      hide Closes, Volumes, Obvs, Mean;
      MeanLooksBack(Closes(s), Closes(t), ind.p, i);
      MeanLooksBack(Volumes(s), Volumes(t), ind.p, i);
      MeanLooksBack(Obvs(s), Obvs(t), ind.p, i);
    }
  }

  // ----- Ranges -----

  lemma {:induction false} SumNotNegative(xs: seq<real>, lo: nat, hi: nat)
    requires lo <= hi <= |xs| && forall i :: lo <= i < hi ==> xs[i] >= 0.0
    ensures Sum(xs, lo, hi) >= 0.0
    decreases hi
  {
    if lo < hi {
      SumNotNegative(xs, lo, hi - 1);
    }
  }

  /** The extremes of a window bound its values and occur in it. */
  lemma {:induction false} ExtremesBound(xs: seq<real>, lo: nat, hi: nat)
    requires lo < hi <= |xs|
    ensures forall j :: lo <= j < hi ==> Least(xs, lo, hi) <= xs[j] <= Greatest(xs, lo, hi)
    ensures exists j :: lo <= j < hi && xs[j] == Greatest(xs, lo, hi)
    ensures exists j :: lo <= j < hi && xs[j] == Least(xs, lo, hi)
    decreases hi
  {
    if lo + 1 < hi {
      ExtremesBound(xs, lo, hi - 1);
    } else {
      assert xs[lo] == Greatest(xs, lo, hi) == Least(xs, lo, hi);
    }
  }

  lemma FractionBounds(part: real, whole: real)
    requires 0.0 <= part <= whole && whole > 0.0
    ensures 0.0 <= 100.0 * part / whole <= 100.0
  {
    var q := 100.0 * part / whole;
    assert q * whole == 100.0 * part;
    assert q < 0.0 ==> q * whole < 0.0;
    assert q > 100.0 ==> q * whole > 100.0 * whole;
  }

  /** The stochastic oscillator stays within [0, 100] on well-formed bars. */
  lemma StochBounds(s: Series, p: Period, i: nat)
    requires WellFormed(s) && p - 1 <= i < |s|
    ensures 0.0 <= StochAt(s, p, i) <= 100.0
  {
    var hi, lo := Greatest(Highs(s), i + 1 - p, i + 1), Least(Lows(s), i + 1 - p, i + 1);
    ExtremesBound(Highs(s), i + 1 - p, i + 1);
    ExtremesBound(Lows(s), i + 1 - p, i + 1);
    assert Lows(s)[i] <= s[i].c <= Highs(s)[i];
    hide Greatest, Least;
    if hi > lo {
      FractionBounds(s[i].c - lo, hi - lo);
    }
  }

  lemma FlowIndexBounds(pos: real, neg: real)
    requires pos >= 0.0 && neg >= 0.0
    ensures FlowIndex(pos, neg).Some? && 0.0 <= FlowIndex(pos, neg).value <= 100.0
  {
    if neg > 0.0 {
      var ratio := pos / neg;
      assert ratio * neg == pos;
      assert ratio < 0.0 ==> ratio * neg < 0.0;
      FractionBounds(1.0, 1.0 + ratio);
    }
  }

  /** The money-flow index is defined and within [0, 100] on well-formed bars. */
  lemma MfiBounds(s: Series, p: Period, i: nat)
    requires WellFormed(s) && p <= i < |s|
    ensures MfiAt(s, p, i).Some? && 0.0 <= MfiAt(s, p, i).value <= 100.0
  {
    forall j, rising | 0 <= j < |s| ensures Flows(s, rising)[j] >= 0.0 {
      assert WellFormedBar(s[j]);
    }
    SumNotNegative(Flows(s, true), i + 1 - p, i + 1);
    SumNotNegative(Flows(s, false), i + 1 - p, i + 1);
    FlowIndexBounds(Sum(Flows(s, true), i + 1 - p, i + 1), Sum(Flows(s, false), i + 1 - p, i + 1));
  }
}
