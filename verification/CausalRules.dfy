/** Three rules of the catalogue, one per way of reading the past (indicator, peak, entry bar), and their causality. */
module CausalRules {
  import opened Prelude
  import opened Indicators
  import opened TradeLoop
  import opened TradeLaws

  /** An indicator value, undefined outside the series as it is for an array read out of range. */
  function Read(ind: Indicator, s: Series, i: int): Option<real> {
    if 0 <= i < |s| then ValueAt(ind, s, i) else None
  }

  predicate ClosesAbove(s: Series, t: nat, level: Option<real>) {
    t < |s| && level.Some? && s[t].c > level.value
  }

  predicate ClosesBelow(s: Series, t: nat, level: Option<real>) {
    t < |s| && level.Some? && s[t].c < level.value
  }

  function Shifted(base: real, k: real, range: Option<real>): Option<real> {
    match range
    case None => None
    case Some(r) => Some(base + k * r)
  }

  function PreviousClose(s: Series, t: nat): real {
    if 1 <= t <= |s| then s[t - 1].c else 0.0
  }

  /** Break above the previous close by `k` average true ranges; leave three ranges below the peak. */
  function AtrBreakout(k: real): Series -> Rule {
    (s: Series) => Rule(
      (t: nat) => ClosesAbove(s, t, Shifted(PreviousClose(s, t), k, Read(Atr(14), s, t - 1))),
      (t: nat, at: nat, peak: real) => ClosesBelow(s, t, Shifted(peak, -3.0, Read(Atr(14), s, t))))
  }

  /** Break above the highest high of `p` bars; leave below the lowest low of half as many. */
  function DonchianHl(p: Period): Series -> Rule
    requires p >= 2
  {
    (s: Series) => Rule(
      (t: nat) => ClosesAbove(s, t, Read(PrevHigh(p), s, t)),
      (t: nat, at: nat, peak: real) => ClosesBelow(s, t, Read(PrevLow(p / 2), s, t)))
  }

  /** Break above an inside bar; leave after five bars or below the low before entry. */
  function InsideBarBreakout(): Series -> Rule {
    (s: Series) => Rule(
      (t: nat) => 2 <= t < |s| && s[t - 1].h < s[t - 2].h && s[t - 1].l > s[t - 2].l && s[t].c > s[t - 1].h,
      (t: nat, at: nat, peak: real) => t - at >= 5 || (1 <= at <= t < |s| && s[t].c < s[at - 1].l))
  }

  /** A rule reads indicators at the current bar and the one before; those values do not look ahead. */
  lemma ReadsLookBack(ind: Indicator, s: Series, t: Series, i: nat)
    requires i < |s| && i < |t| && s[..i + 1] == t[..i + 1]
    ensures Read(ind, s, i) == Read(ind, t, i) && Read(ind, s, i - 1) == Read(ind, t, i - 1)
    ensures forall j :: 0 <= j <= i ==> s[j] == t[j]
  {
    SameBars(s, t, i + 1);
    NoLookAhead(ind, s, t, i);
    if i >= 1 {
      assert s[..i] == s[..i + 1][..i] == t[..i + 1][..i] == t[..i];
      assert s[..i - 1 + 1] == t[..i - 1 + 1];
      NoLookAhead(ind, s, t, i - 1);
    }
    hide ValueAt;
  }

  lemma AtrBreakoutIsCausal(k: real)
    ensures Causal(AtrBreakout(k))
  {
    var make := AtrBreakout(k);
    forall s: Series, t: Series, i: nat | i < |s| && i < |t| && s[..i + 1] == t[..i + 1]
      ensures SameDecisions(make(s), make(t), i)
    {
      ReadsLookBack(Atr(14), s, t, i);
      hide Read, Shifted;
    }
  }

  lemma DonchianHlIsCausal(p: Period)
    requires p >= 2
    ensures Causal(DonchianHl(p))
  {
    var make := DonchianHl(p);
    forall s: Series, t: Series, i: nat | i < |s| && i < |t| && s[..i + 1] == t[..i + 1]
      ensures SameDecisions(make(s), make(t), i)
    {
      ReadsLookBack(PrevHigh(p), s, t, i);
      ReadsLookBack(PrevLow(p / 2), s, t, i);
      hide Read;
    }
  }

  lemma InsideBarBreakoutIsCausal()
    ensures Causal(InsideBarBreakout())
  {
    var make := InsideBarBreakout();
    forall s: Series, t: Series, i: nat | i < |s| && i < |t| && s[..i + 1] == t[..i + 1]
      ensures SameDecisions(make(s), make(t), i)
    {
      SameBars(s, t, i + 1);
    }
  }
}
