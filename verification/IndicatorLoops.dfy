/**
 The indicator loops of the OHLCV screen (`indicators` in scripts/offline-ohlcv-catalog-screen.js): running sums, a
 recursive average and nested window scans, each proved to fill its array with the directly defined values.
 */
module IndicatorLoops {
  import opened Numbers
  import opened Prelude
  import opened Indicators

  // ----- Window arithmetic -----

  /** Dropping the oldest value of a window. */
  lemma {:induction false} SumDropsFirst(xs: seq<real>, lo: nat, hi: nat)
    requires lo < hi <= |xs|
    ensures Sum(xs, lo, hi) - xs[lo] == Sum(xs, lo + 1, hi)
    decreases hi
  {
    if lo + 1 < hi {
      SumDropsFirst(xs, lo, hi - 1);
    }
  }

  function WindowStart(p: Period, i: nat): nat {
    if i < p then 0 else i - p
  }

  /** One step of a rolling sum: add the new value, drop the one that left the window. */
  lemma RollingStep(xs: seq<real>, p: Period, i: nat, sum: real)
    requires i < |xs| && sum == Sum(xs, WindowStart(p, i), i)
    ensures (if i >= p then sum + xs[i] - xs[i - p] else sum + xs[i]) == Sum(xs, WindowStart(p, i + 1), i + 1)
  {
    if i >= p {
      SumDropsFirst(xs, i - p, i + 1);
    }
  }

  lemma DivideSum(x: real, y: real, d: real)
    requires d != 0.0
    ensures x / d + y / d == (x + y) / d
  {
  }

  lemma ContributionDecays(k: real, decay: real, next: real, x: real)
    requires next == (1.0 - k) * decay
    ensures Contribution(k, next, x) == Decayed(1.0 - k, Contribution(k, decay, x))
  {
  }

  lemma Distribute(a: real, x: real, y: real)
    ensures Decayed(a, x) + Decayed(a, y) == Decayed(a, x + y)
  {
  }

  /** The contribution of one value fades by the same factor at every bar. */
  lemma ContributionFades(k: real, i: nat, m: nat, x: real)
    requires m <= i
    ensures Contribution(k, Power(1.0 - k, i + 1 - m), x) == Decayed(1.0 - k, Contribution(k, Power(1.0 - k, i - m), x))
  {
    hide Contribution, Power;
    PowerStep(1.0 - k, i - m);
    ContributionDecays(k, Power(1.0 - k, i - m), Power(1.0 - k, i + 1 - m), x);
  }

  lemma DecayedZero(a: real)
    ensures Decayed(a, 0.0) == 0.0
  {
  }

  lemma {:induction false} WeightedDecays(xs: seq<real>, k: real, i: nat, m: nat)
    requires m <= i && m < |xs|
    ensures Weighted(xs, k, i + 1, m) == Decayed(1.0 - k, Weighted(xs, k, i, m))
  {
    hide Contribution, Power, Decayed;
    if m == 0 {
      DecayedZero(1.0 - k);
    } else {
      WeightedDecays(xs, k, i, m - 1);
      ContributionFades(k, i, m, xs[m]);
      Distribute(1.0 - k, Weighted(xs, k, i, m - 1), Contribution(k, Power(1.0 - k, i - m), xs[m]));
    }
  }

  /** The recursive form of the exponential average. */
  lemma EmaStep(xs: seq<real>, k: real, i: nat)
    requires i + 1 < |xs|
    ensures EmaAt(xs, k, i + 1) == xs[i + 1] * k + EmaAt(xs, k, i) * (1.0 - k)
  {
    WeightedDecays(xs, k, i, i);
    LastContribution(xs, k, i);
    PowerStep(1.0 - k, i);
    hide Weighted, Power, Contribution, Decayed;
    EmaParts(k, Power(1.0 - k, i), xs[0], Weighted(xs, k, i, i));
  }

  lemma PowerStep(x: real, n: nat)
    ensures Power(x, n + 1) == x * Power(x, n)
  {
  }

  lemma LastContribution(xs: seq<real>, k: real, i: nat)
    requires i + 1 < |xs|
    ensures Weighted(xs, k, i + 1, i + 1) == Weighted(xs, k, i + 1, i) + xs[i + 1] * k
  {
    assert Contribution(k, Power(1.0 - k, 0), xs[i + 1]) == xs[i + 1] * k;
    hide Contribution;
  }

  lemma EmaParts(k: real, decay: real, first: real, rest: real)
    ensures Decayed((1.0 - k) * decay, first) + Decayed(1.0 - k, rest) == (Decayed(decay, first) + rest) * (1.0 - k)
  {
    assert (1.0 - k) * decay * first == (1.0 - k) * (decay * first);
    Distribute(1.0 - k, decay * first, rest);
  }

  // ----- Loops -----

  method SmaOf(xs: seq<real>, p: Period) returns (o: Column)
    ensures o == seq(|xs|, i requires 0 <= i < |xs| => Mean(xs, p, i))
  {
    hide Sum;
    var out := new Option<real>[|xs|](_ => None);
    var sum := 0.0;
    assert sum == Sum(xs, 0, 0) by { EmptySum(xs, 0); }
    for i := 0 to |xs|
      invariant sum == Sum(xs, WindowStart(p, i), i)
      invariant forall k :: 0 <= k < i ==> out[k] == Mean(xs, p, k)
      invariant forall k :: i <= k < |xs| ==> out[k] == None
    {
      RollingStep(xs, p, i, sum);
      sum := sum + xs[i];
      if i >= p { sum := sum - xs[i - p]; }
      if i + 1 >= p { out[i] := Some(sum / p as real); }
    }
    o := out[..];
  }

  lemma EmptySum(xs: seq<real>, lo: nat)
    requires lo <= |xs|
    ensures Sum(xs, lo, lo) == 0.0
  {
  }

  method EmaOf(xs: seq<real>, p: Period) returns (o: Column)
    ensures o == seq(|xs|, i requires 0 <= i < |xs| => if i + 1 < p then None else Some(EmaAt(xs, Smoothing(p), i)))
  {
    hide Smoothing, EmaAt;
    var out := new Option<real>[|xs|](_ => None);
    var k := Smoothing(p);
    var e := if |xs| > 0 then xs[0] else 0.0;
    for i := 0 to |xs|
      invariant i > 0 ==> e == EmaAt(xs, k, i - 1)
      invariant forall j :: 0 <= j < i ==> out[j] == if j + 1 < p then None else Some(EmaAt(xs, k, j))
      invariant forall j :: i <= j < |xs| ==> out[j] == None
    {
      if i == 0 {
        FirstEma(xs, k);
        e := xs[0];
      } else {
        EmaStep(xs, k, i - 1);
        e := xs[i] * k + e * (1.0 - k);
      }
      if i + 1 >= p { out[i] := Some(e); }
    }
    o := out[..];
  }

  lemma FirstEma(xs: seq<real>, k: real)
    requires |xs| > 0
    ensures EmaAt(xs, k, 0) == xs[0]
  {
    assert Power(1.0 - k, 0) == 1.0;
    assert Decayed(1.0, xs[0]) == xs[0];
  }

  method AtrOf(t: seq<real>, p: Period) returns (o: Column)
    ensures o == seq(|t|, i requires 0 <= i < |t| => if i + 1 < p then None else Some(WilderAt(t, p, i)))
  {
    hide Sum, WilderAt, WilderStep;
    var out := new Option<real>[|t|](_ => None);
    var a := 0.0;
    EmptySum(t, 0);
    assert 0.0 / p as real == 0.0;
    for i := 0 to |t|
      invariant i <= p ==> a == Sum(t, 0, i) / p as real
      invariant i >= p ==> a == WilderAt(t, p, i - 1)
      invariant forall j :: 0 <= j < i ==> out[j] == if j + 1 < p then None else Some(WilderAt(t, p, j))
      invariant forall j :: i <= j < |t| ==> out[j] == None
    {
      WilderGrows(t, p, i, a);
      a := if i < p then a + t[i] / p as real else WilderStep(a, t[i], p);
      if i + 1 >= p { out[i] := Some(a); }
    }
    o := out[..];
  }

  lemma WilderGrows(t: seq<real>, p: Period, i: nat, a: real)
    requires i < |t| && (i <= p ==> a == Sum(t, 0, i) / p as real) && (i >= p ==> a == WilderAt(t, p, i - 1))
    ensures i < p ==> a + t[i] / p as real == Sum(t, 0, i + 1) / p as real
    ensures i + 1 == p ==> a + t[i] / p as real == WilderAt(t, p, i)
    ensures i >= p ==> WilderStep(a, t[i], p) == WilderAt(t, p, i)
    ensures i + 1 == p ==> WilderAt(t, p, i) == Sum(t, 0, i + 1) / p as real
  {
    hide WilderStep;
    DivideSum(Sum(t, 0, i), t[i], p as real);
  }

  /** The nested scan of `prevHigh`; `m` is None where the source holds minus infinity. */
  method PrevHighOf(xs: seq<real>, p: Period) returns (o: Column)
    ensures o == seq(|xs|, i requires 0 <= i < |xs| => if i < p then None else Some(Greatest(xs, i - p, i)))
  {
    var out := new Option<real>[|xs|](_ => None);
    var i: nat := p;
    while i < |xs|
      invariant p <= i
      invariant forall k :: 0 <= k < i && k < |xs| ==> out[k] == if k < p then None else Some(Greatest(xs, k - p, k))
      invariant forall k :: i <= k < |xs| ==> out[k] == None
    {
      var m: Option<real> := None;
      for j := i - p to i
        invariant m == if j == i - p then None else Some(Greatest(xs, i - p, j))
      {
        m := if m.None? then Some(xs[j]) else Some(RealMax(m.value, xs[j]));
      }
      out[i] := m;
      i := i + 1;
    }
    o := out[..];
  }

  method PrevLowOf(xs: seq<real>, p: Period) returns (o: Column)
    ensures o == seq(|xs|, i requires 0 <= i < |xs| => if i < p then None else Some(Least(xs, i - p, i)))
  {
    var out := new Option<real>[|xs|](_ => None);
    var i: nat := p;
    while i < |xs|
      invariant p <= i
      invariant forall k :: 0 <= k < i && k < |xs| ==> out[k] == if k < p then None else Some(Least(xs, k - p, k))
      invariant forall k :: i <= k < |xs| ==> out[k] == None
    {
      var m: Option<real> := None;
      for j := i - p to i
        invariant m == if j == i - p then None else Some(Least(xs, i - p, j))
      {
        m := if m.None? then Some(xs[j]) else Some(RealMin(m.value, xs[j]));
      }
      out[i] := m;
      i := i + 1;
    }
    o := out[..];
  }

  method StochOf(s: Series, p: Period) returns (o: Column)
    ensures o == ColumnOf(Stoch(p), s)
  {
    var highs, lows := Highs(s), Lows(s);
    var out := new Option<real>[|s|](_ => None);
    var i: nat := p - 1;
    while i < |s|
      invariant p - 1 <= i
      invariant forall k :: 0 <= k < i && k < |s| ==> out[k] == ValueAt(Stoch(p), s, k)
      invariant forall k :: i <= k < |s| ==> out[k] == None
    {
      var hi, lo := ScanRange(highs, lows, i + 1 - p, i + 1);
      out[i] := Some(if hi > lo then 100.0 * (s[i].c - lo) / (hi - lo) else 50.0);
      i := i + 1;
    }
    o := out[..];
  }

  /** The inner scan of the stochastic: the highest high and the lowest low of a window. */
  method ScanRange(highs: seq<real>, lows: seq<real>, from: nat, to: nat) returns (hi: real, lo: real)
    requires from < to <= |highs| && |lows| == |highs|
    ensures hi == Greatest(highs, from, to) && lo == Least(lows, from, to)
  {
    hi, lo := highs[from], lows[from];
    for j := from + 1 to to
      invariant hi == Greatest(highs, from, j) && lo == Least(lows, from, j)
    {
      hi, lo := RealMax(hi, highs[j]), RealMin(lo, lows[j]);
    }
  }

  method ObvOf(s: Series) returns (o: Column)
    ensures o == ColumnOf(Obv, s)
  {
    var out := new Option<real>[|s|](_ => None);
    var total := 0.0;
    for i := 0 to |s|
      invariant total == Sum(SignedVolumes(s), 0, i)
      invariant forall k :: 0 <= k < i ==> out[k] == Some(ObvAt(s, k))
    {
      if i > 0 {
        total := total + if s[i].c > s[i - 1].c then s[i].v else if s[i].c < s[i - 1].c then -s[i].v else 0.0;
      }
      out[i] := Some(total);
    }
    o := out[..];
  }

  /** The inner scan of the money-flow index. */
  method ScanFlows(s: Series, from: nat, to: nat) returns (pos: real, neg: real)
    requires 1 <= from <= to <= |s|
    ensures pos == Sum(Flows(s, true), from, to) && neg == Sum(Flows(s, false), from, to)
  {
    pos, neg := 0.0, 0.0;
    for j := from to to
      invariant pos == Sum(Flows(s, true), from, j) && neg == Sum(Flows(s, false), from, j)
    {
      var f := Typical(s[j]) * s[j].v;
      assert Flows(s, true)[j] == Flow(s, j, true) && Flows(s, false)[j] == Flow(s, j, false);
      if Typical(s[j]) > Typical(s[j - 1]) {
        pos := pos + f;
      } else if Typical(s[j]) < Typical(s[j - 1]) {
        neg := neg + f;
      }
    }
  }

  method MfiOf(s: Series, p: Period) returns (o: Column)
    ensures o == ColumnOf(Mfi(p), s)
  {
    hide Sum, Flows, FlowIndex;
    var out := new Option<real>[|s|](_ => None);
    var i: nat := p;
    while i < |s|
      invariant p <= i
      invariant forall k :: 0 <= k < i && k < |s| ==> out[k] == ValueAt(Mfi(p), s, k)
      invariant forall k :: i <= k < |s| ==> out[k] == None
    {
      var pos, neg := ScanFlows(s, i - p + 1, i + 1);
      out[i] := FlowIndex(pos, neg);
      i := i + 1;
    }
    o := out[..];
  }

  method VwapOf(s: Series, p: Period) returns (o: Column)
    ensures o == ColumnOf(Vwap(p), s)
  {
    var pvs, vs := PriceVolumes(s), Volumes(s);
    hide Sum;
    var out := new Option<real>[|s|](_ => None);
    var pv, vv := 0.0, 0.0;
    EmptySum(pvs, 0);
    EmptySum(vs, 0);
    for i := 0 to |s|
      invariant pv == Sum(pvs, WindowStart(p, i), i) && vv == Sum(vs, WindowStart(p, i), i)
      invariant forall k :: 0 <= k < i ==> out[k] == ValueAt(Vwap(p), s, k)
      invariant forall k :: i <= k < |s| ==> out[k] == None
    {
      RollingStep(pvs, p, i, pv);
      RollingStep(vs, p, i, vv);
      pv, vv := pv + pvs[i], vv + vs[i];
      if i >= p { pv, vv := pv - pvs[i - p], vv - vs[i - p]; }
      if i + 1 >= p && vv > 0.0 { out[i] := Some(pv / vv); }
    }
    o := out[..];
  }
}
