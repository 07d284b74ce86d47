/**
 The indicator memo of the OHLCV screen (`get` in scripts/offline-ohlcv-catalog-screen.js): results are stored under
 text keys such as `sma20`. No two computations share a key, so what the memo returns is always a fresh computation's
 result.
 */
module IndicatorMemo {
  import opened Prelude
  import opened Indicators
  import opened IndicatorLoops
  import opened Text
  import opened Trend

  // ----- Keys -----

  /** What the memo can hold: an indicator column, the directional columns, or the directions of a supertrend. */
  datatype MemoKey = OfIndicator(ind: Indicator) | OfAdx(p: Period) | OfSupertrend(p: Period, m: nat)

  function Name(k: MemoKey): string {
    match k
    case OfAdx(_) => "adx"
    case OfSupertrend(_, _) => "stt"
    case OfIndicator(ind) =>
      match ind
      case Tr => "tr"
      case Sma(_) => "sma"
      case Ema(_) => "ema"
      case VolumeSma(_) => "vsma"
      case Atr(_) => "atr"
      case PrevHigh(_) => "ph"
      case PrevLow(_) => "pl"
      case Stoch(_) => "st"
      case Obv => "obv"
      case ObvSma(_) => "obvs"
      case Mfi(_) => "mfi"
      case Vwap(_) => "vwap"
  }

  function Arguments(k: MemoKey): string {
    match k
    case OfAdx(p) => Decimal(p)
    case OfSupertrend(p, m) => Decimal(p) + ("_" + Decimal(m))
    case OfIndicator(ind) => if ind.Tr? || ind.Obv? then "" else Decimal(ind.p)
  }

  function KeyText(k: MemoKey): string {
    Name(k) + Arguments(k)
  }

  predicate NoDigits(s: string) {
    forall i :: 0 <= i < |s| ==> !IsDigit(s[i])
  }

  function NonDigitRun(s: string): (n: nat)
    ensures n <= |s|
  {
    if |s| == 0 || IsDigit(s[0]) then 0 else 1 + NonDigitRun(s[1..])
  }

  lemma {:induction false} NonDigitRunStops(a: string, x: string)
    requires NoDigits(a) && (|x| > 0 ==> IsDigit(x[0]))
    ensures NonDigitRun(a + x) == |a|
  {
    if |a| == 0 {
      assert a + x == x;
    } else {
      assert (a + x)[1..] == a[1..] + x;
      NonDigitRunStops(a[1..], x);
    }
  }

  /** A text splits at its first digit in one way. */
  lemma SplitAtDigit(a: string, x: string, b: string, y: string)
    requires NoDigits(a) && NoDigits(b) && (|x| > 0 ==> IsDigit(x[0])) && (|y| > 0 ==> IsDigit(y[0]))
    requires a + x == b + y
    ensures a == b && x == y
  {
    NonDigitRunStops(a, x);
    NonDigitRunStops(b, y);
    SameLengthParts(a, x, b, y);
  }

  lemma SameLengthParts(a: string, x: string, b: string, y: string)
    requires a + x == b + y && |a| == |b|
    ensures a == b && x == y
  {
    assert (a + x)[..|a|] == a && (b + y)[..|b|] == b;
    assert (a + x)[|a|..] == x && (b + y)[|b|..] == y;
  }

  lemma ArgumentsStartWithDigit(k: MemoKey)
    ensures |Arguments(k)| > 0 ==> IsDigit(Arguments(k)[0])
  {
  }

  lemma NamesHaveNoDigits(k: MemoKey)
    ensures NoDigits(Name(k))
  {
  }

  /** The name tells the kind of a key. */
  lemma NamesDiffer(j: MemoKey, k: MemoKey)
    requires Name(j) == Name(k)
    ensures j.OfAdx? == k.OfAdx? && j.OfSupertrend? == k.OfSupertrend?
    ensures j.OfIndicator? && k.OfIndicator? ==> SameKind(j.ind, k.ind)
  {
  }

  predicate SameKind(a: Indicator, b: Indicator) {
    && a.Tr? == b.Tr? && a.Sma? == b.Sma? && a.Ema? == b.Ema? && a.VolumeSma? == b.VolumeSma? && a.Atr? == b.Atr?
    && a.PrevHigh? == b.PrevHigh? && a.PrevLow? == b.PrevLow? && a.Stoch? == b.Stoch? && a.Obv? == b.Obv?
    && a.ObvSma? == b.ObvSma? && a.Mfi? == b.Mfi? && a.Vwap? == b.Vwap?
  }

  lemma PairDecides(p: nat, m: nat, q: nat, n: nat)
    requires Decimal(p) + ("_" + Decimal(m)) == Decimal(q) + ("_" + Decimal(n))
    ensures p == q && m == n
  {
    hide Decimal;
    var x, y := "_" + Decimal(m), "_" + Decimal(n);
    DigitRunStops(Decimal(p), x);
    DigitRunStops(Decimal(q), y);
    SameLengthParts(Decimal(p), x, Decimal(q), y);
    SameLengthParts("_", Decimal(m), "_", Decimal(n));
    DecimalInjective(p, q);
    DecimalInjective(m, n);
  }

  /** No two entries of the memo share a key. */
  lemma KeysDoNotCollide(j: MemoKey, k: MemoKey)
    requires KeyText(j) == KeyText(k)
    ensures j == k
  {
    ArgumentsStartWithDigit(j);
    ArgumentsStartWithDigit(k);
    NamesHaveNoDigits(j);
    NamesHaveNoDigits(k);
    SplitAtDigit(Name(j), Arguments(j), Name(k), Arguments(k));
    NamesDiffer(j, k);
    hide Name;
    if j.OfSupertrend? {
      PairDecides(j.p, j.m, k.p, k.m);
    } else if j.OfAdx? {
      DecimalInjective(j.p, k.p);
    } else if !(j.ind.Tr? || j.ind.Obv?) {
      DecimalInjective(j.ind.p, k.ind.p);
    }
  }

  // ----- The memo -----

  datatype Entry = Values(column: Column) | Directional(adx: Adx) | Turns(directions: seq<int>)

  /** What a fresh computation gives for a key. */
  function EntryOf(k: MemoKey, s: Series): Entry {
    match k
    case OfIndicator(ind) => Values(ColumnOf(ind, s))
    case OfAdx(p) => Directional(AdxColumns(s, p))
    case OfSupertrend(p, m) => Turns(Directions(s, p, m as real))
  }

  /** The numbers of a column that is defined everywhere. */
  function NumbersOf(col: Column): seq<real>
    requires forall i :: 0 <= i < |col| ==> col[i].Some?
  {
    seq(|col|, i requires 0 <= i < |col| => col[i].value)
  }

  /** How many other entries, one inside the other, the computation of an entry asks for. */
  function Depth(k: MemoKey): nat {
    match k
    case OfSupertrend(_, _) => 2
    case OfAdx(_) => 1
    case OfIndicator(ind) => if ind.Atr? || ind.ObvSma? then 1 else 0
  }

  class IndicatorCache {
    const s: Series
    var memo: map<string, Entry>

    /** Every stored entry is what a fresh computation gives. */
    ghost predicate Valid()
      reads this
    {
      forall k: MemoKey :: KeyText(k) in memo ==> memo[KeyText(k)] == EntryOf(k, s)
    }

    constructor (s: Series)
      ensures Valid() && this.s == s && memo == map[]
    {
      this.s, memo := s, map[];
    }

    /** The entry of a key: from the memo when it is there, computed and stored otherwise. */
    method Get(k: MemoKey) returns (entry: Entry)
      requires Valid()
      modifies this
      ensures Valid() && entry == EntryOf(k, s)
      ensures KeyText(k) in memo
      ensures forall key :: key in old(memo) ==> key in memo && memo[key] == old(memo)[key]
      decreases Depth(k), 1
    {
      hide KeyText, EntryOf;
      var key := KeyText(k);
      if key in memo { return memo[key]; }
      entry := Compute(k);
      if key in memo {
        Stored(k);
      }
      memo := memo[key := entry];
      forall other: MemoKey | KeyText(other) in memo
        ensures memo[KeyText(other)] == EntryOf(other, s)
      {
        if KeyText(other) == key {
          KeysDoNotCollide(other, k);
        }
      }
    }

    lemma Stored(k: MemoKey)
      requires Valid() && KeyText(k) in memo
      ensures memo[KeyText(k)] == EntryOf(k, s)
    {
    }

    /** The computation behind one key; four kinds of entries take their input through the memo. */
    method Compute(k: MemoKey) returns (entry: Entry)
      requires Valid()
      modifies this
      ensures Valid() && entry == EntryOf(k, s)
      ensures forall key :: key in old(memo) ==> key in memo && memo[key] == old(memo)[key]
      decreases Depth(k), 0
    {
      hide ValueAt, AdxColumns, Directions, KeyText;
      match k {
        case OfAdx(p) => {
          var ranges := Get(OfIndicator(Tr));
          RangesAreNumbers(s);
          var adx := AdxOf(s, NumbersOf(ranges.column), p);
          entry := Directional(adx);
        }
        case OfSupertrend(p, m) => {
          var averages := Get(OfIndicator(Atr(p)));
          var directions := SupertrendOf(s, averages.column, p, m as real);
          entry := Turns(directions);
        }
        case OfIndicator(ind) => {
          var column: Column;
          if ind.Atr? {
            var ranges := Get(OfIndicator(Tr));
            RangesAreNumbers(s);
            column := AtrOf(NumbersOf(ranges.column), ind.p);
            AveragesAreColumn(s, ind.p);
          } else if ind.ObvSma? {
            var volumes := Get(OfIndicator(Obv));
            VolumesAreNumbers(s);
            column := SmaOf(NumbersOf(volumes.column), ind.p);
            VolumeAveragesAreColumn(s, ind.p);
          } else {
            column := ComputeFromBars(s, ind);
          }
          entry := Values(column);
        }
      }
    }
  }

  lemma RangesAreNumbers(s: Series)
    ensures var col := ColumnOf(Tr, s);
      (forall i :: 0 <= i < |col| ==> col[i].Some?) && NumbersOf(col) == TrueRanges(s)
  {
  }

  lemma VolumesAreNumbers(s: Series)
    ensures var col := ColumnOf(Obv, s);
      (forall i :: 0 <= i < |col| ==> col[i].Some?) && NumbersOf(col) == Obvs(s)
  {
  }

  lemma AveragesAreColumn(s: Series, p: Period)
    ensures ColumnOf(Atr(p), s) ==
      seq(|s|, i requires 0 <= i < |s| => if i + 1 < p then None else Some(WilderAt(TrueRanges(s), p, i)))
  {
    hide WilderAt, TrueRange;
  }

  lemma VolumeAveragesAreColumn(s: Series, p: Period)
    ensures ColumnOf(ObvSma(p), s) == seq(|s|, i requires 0 <= i < |s| => Mean(Obvs(s), p, i))
  {
    hide Mean, ObvAt;
  }

  /** The indicators that read the bars directly. */
  method ComputeFromBars(s: Series, ind: Indicator) returns (col: Column)
    requires !ind.Atr? && !ind.ObvSma?
    ensures col == ColumnOf(ind, s)
  {
    match ind
    case Tr => col := seq(|s|, i requires 0 <= i < |s| => Some(TrueRange(s, i)));
    case Sma(p) => col := SmaOf(Closes(s), p);
    case Ema(p) => col := EmaOf(Closes(s), p);
    case VolumeSma(p) => col := SmaOf(Volumes(s), p);
    case PrevHigh(p) => col := PrevHighOf(Highs(s), p);
    case PrevLow(p) => col := PrevLowOf(Lows(s), p);
    case Stoch(p) => col := StochOf(s, p);
    case Obv => col := ObvOf(s);
    case Mfi(p) => col := MfiOf(s, p);
    case Vwap(p) => col := VwapOf(s, p);
  }
}
