/** The three rules of CausalRules in prices: what a close has to clear for a trade to be opened or closed. */
module RuleMeaning {
  import opened Prelude
  import opened Indicators
  import opened IndicatorMeaning
  import opened TradeLoop
  import opened CausalRules

  /** Opened above every high of the last `p` bars, closed below every low of the last half of them. */
  lemma DonchianHlMeans(p: Period, s: Series, t: nat, at: nat, peak: real)
    requires 2 <= p <= t < |s|
    ensures DonchianHl(p)(s).enter(t) <==> forall k :: t - p <= k < t ==> s[t].c > s[k].h
    ensures DonchianHl(p)(s).exit(t, at, peak) <==> forall k :: t - p / 2 <= k < t ==> s[t].c < s[k].l
  {
    hide ValueAt;
    ExtremesBefore(s, p, t);
    ExtremesBefore(s, p / 2, t);
  }

  /** Nothing is opened or closed before the bars it takes are there. */
  lemma DonchianHlWaits(p: Period, s: Series, t: nat, at: nat, peak: real)
    requires p >= 2
    ensures t < p ==> !DonchianHl(p)(s).enter(t)
    ensures t < p / 2 ==> !DonchianHl(p)(s).exit(t, at, peak)
  {
  }

  /** Opened on a rise of more than `k` ranges over the last close, closed more than three ranges under the peak. */
  lemma AtrBreakoutMeans(k: real, s: Series, t: nat, at: nat, peak: real, range: real)
    requires 0 < t < |s|
    ensures ValueAt(Atr(14), s, t - 1) == Some(range) ==>
      (AtrBreakout(k)(s).enter(t) <==> s[t].c - s[t - 1].c > k * range)
    ensures ValueAt(Atr(14), s, t) == Some(range) ==>
      (AtrBreakout(k)(s).exit(t, at, peak) <==> peak - s[t].c > 3.0 * range)
    ensures ValueAt(Atr(14), s, t - 1) == None ==> !AtrBreakout(k)(s).enter(t)
    ensures ValueAt(Atr(14), s, t) == None ==> !AtrBreakout(k)(s).exit(t, at, peak)
  {
    hide ValueAt;
  }

  /** Opened above a bar that lies strictly within the one before it. */
  lemma InsideBarEnters(s: Series, t: nat)
    requires 2 <= t < |s|
    ensures InsideBarBreakout()(s).enter(t) <==>
      s[t - 2].l < s[t - 1].l && s[t - 1].h < s[t - 2].h && s[t - 1].h < s[t].c
  {
    hide ValueAt;
  }

  /** Closed under the low of the bar before entry, or after five bars. */
  lemma InsideBarExits(s: Series, t: nat, at: nat, peak: real)
    requires 1 <= at <= t < |s|
    ensures InsideBarBreakout()(s).exit(t, at, peak) <==> at + 5 <= t || s[t].c < s[at - 1].l
  {
    hide ValueAt;
  }
}
