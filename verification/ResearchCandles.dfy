/**
 The backward pager of the research run (`fetchResearchCandles` in scripts/research-real-market-run.js). A page reply is
 the number of raw candles together with what the exchange adapter made of them: completed candles in ascending order.
 */
module ResearchCandles {
  import opened Prelude

  const PAGE: nat := 200
  const CEILING: int := 4000

  datatype Candle = Candle(market: string, openTime: int, price: real)

  datatype PageReply = RequestFailed(error: string) | NotCandles | Page(rawLength: nat, mapped: seq<Candle>)

  /** A source of pages: the request's number, its exclusive end and its size decide the reply. */
  type Source = (nat, int, nat) -> PageReply

  /** The latest interval boundary not after a moment. */
  function Anchor(asOf: real, interval: nat): int
    requires interval > 0
  {
    (asOf / interval as real).Floor * interval
  }

  /** The moment `n` intervals before another. */
  function Back(before: int, n: int, interval: nat): int {
    before - n * interval
  }

  lemma BackTwice(before: int, m: int, n: int, interval: nat)
    ensures Back(Back(before, m, interval), n, interval) == Back(before, m + n, interval)
  {
  }

  function Times(a: real, b: real): real { a * b }

  lemma {:induction false} CastProduct(a: int, n: nat)
    ensures (a * n) as real == Times(a as real, n as real)
  {
    if n > 0 {
      CastProduct(a, n - 1);
      assert a * n == a * (n - 1) + a;
      assert Times(a as real, n as real) == Times(a as real, (n - 1) as real) + a as real;
    }
  }

  lemma ScaledFloor(f: real, q: real, n: real)
    requires f <= q < f + 1.0 && n > 0.0
    ensures Times(f, n) <= Times(q, n) < Times(f, n) + n
  {
    var part := q - f;
    Distributes(f, part, n);
    Distributes(part, 1.0 - part, n);
    Positive(part, n);
    Positive(1.0 - part, n);
    assert Times(1.0, n) == n;
    hide Times;
  }

  lemma Distributes(a: real, b: real, n: real)
    ensures Times(a + b, n) == Times(a, n) + Times(b, n)
  {
  }

  lemma Positive(a: real, n: real)
    requires a >= 0.0 && n > 0.0
    ensures Times(a, n) >= 0.0 && (a > 0.0 ==> Times(a, n) > 0.0)
  {
  }

  lemma Quotient(a: real, n: real, q: real)
    requires n > 0.0 && q == a / n
    ensures Times(q, n) == a
  {
  }

  /** The anchor is a boundary that has passed, and the next boundary has not. */
  lemma AnchorIsLastBoundary(asOf: real, interval: nat) returns (q: int)
    requires interval > 0
    ensures Anchor(asOf, interval) == q * interval
    ensures Anchor(asOf, interval) as real <= asOf < Anchor(asOf, interval) as real + interval as real
  {
    var ratio := asOf / interval as real;
    q := ratio.Floor;
    assert Anchor(asOf, interval) == q * interval;
    hide Anchor, Times;
    CastProduct(q, interval);
    Quotient(asOf, interval as real, ratio);
    ScaledFloor(q as real, ratio, interval as real);
  }

  /** A run of candles of one market, one per interval, the last one closing at `before`. */
  predicate Contiguous(candles: seq<Candle>, market: string, before: int, interval: nat) {
    forall k :: 0 <= k < |candles| ==>
      candles[k].market == market && candles[k].openTime == Back(before, |candles| - k, interval)
  }

  /** Contiguous candles of a market: each opens when the one before it closes, and the last closes at `before`. */
  lemma {:induction false} ContiguousIff(candles: seq<Candle>, market: string, before: int, interval: nat)
    ensures Contiguous(candles, market, before, interval) <==>
      && (forall k :: 0 <= k < |candles| ==> candles[k].market == market)
      && (forall k :: 1 <= k < |candles| ==> candles[k].openTime == candles[k - 1].openTime + interval)
      && (candles != [] ==> candles[|candles| - 1].openTime + interval == before)
    decreases |candles|
  {
    if candles != [] {
      var older := candles[..|candles| - 1];
      ContiguousIff(older, market, before - interval, interval);
      hide Contiguous, Back;
      LastCandle(candles, market, before, interval);
      assert |older| > 0 ==> older[|older| - 1] == candles[|candles| - 2];
    }
  }

  lemma LastCandle(candles: seq<Candle>, market: string, before: int, interval: nat)
    requires candles != []
    ensures Contiguous(candles, market, before, interval) <==>
      && Contiguous(candles[..|candles| - 1], market, before - interval, interval)
      && candles[|candles| - 1].market == market && candles[|candles| - 1].openTime == before - interval
  {
    var older := candles[..|candles| - 1];
    forall k: int | 0 <= k < |older|
      ensures older[k] == candles[k]
      ensures Back(before - interval, |older| - k, interval) == Back(before, |candles| - k, interval)
    {
    }
    assert Back(before, 1, interval) == before - interval;
    hide Back;
  }

  /** The error of a page of the given size that should end at `before`. */
  function PageFault(reply: PageReply, market: string, before: int, size: nat, interval: nat): Option<string> {
    match reply
    case RequestFailed(error) => Some(error)
    case NotCandles => Some("Upbit research history is incomplete")
    case Page(rawLength, mapped) =>
      if rawLength != size then Some("Upbit research history is incomplete")
      else if |mapped| != size then Some("Upbit research page contains incomplete candles")
      else if !Contiguous(mapped, market, before, interval)
      then Some("Upbit research history has a market, gap, duplicate, or cursor mismatch")
      else None
  }

  function Smallest(a: nat, b: nat): nat { if a <= b then a else b }

  /** The candles that the remaining pages make up, oldest first, or the first error. */
  function Candles(
    source: Source, market: string, interval: nat, page: nat, before: int, need: nat): Result<seq<Candle>>
    decreases need
  {
    if need == 0 then Ok([])
    else
      var size := Smallest(PAGE, need);
      var reply := source(page, before, size);
      if PageFault(reply, market, before, size, interval).Some? then
        Err(PageFault(reply, market, before, size, interval).value)
      else Appended(Candles(source, market, interval, page + 1, Back(before, size, interval), need - size),
        reply.mapped)
  }

  /** One page behind what the older pages make up. */
  lemma CandlesOfPage(source: Source, market: string, interval: nat, page: nat, before: int, need: nat)
    requires need > 0
    ensures var size := Smallest(PAGE, need);
      var reply := source(page, before, size);
      var fault := PageFault(reply, market, before, size, interval);
      Candles(source, market, interval, page, before, need) ==
        if fault.Some? then Err(fault.value)
        else Appended(Candles(source, market, interval, page + 1, Back(before, size, interval), need - size),
          reply.mapped)
  {
    hide Contiguous, Back;
  }

  lemma NoMoreCandles(source: Source, market: string, interval: nat, page: nat, before: int, candles: seq<Candle>)
    ensures Appended(Candles(source, market, interval, page, before, 0), candles) == Ok(candles)
  {
    assert [] + candles == candles;
  }

  function Appended(rest: Result<seq<Candle>>, newer: seq<Candle>): Result<seq<Candle>> {
    match rest
    case Err(e) => Err(e)
    case Ok(older) => Ok(older + newer)
  }

  lemma ContiguousJoins(older: seq<Candle>, newer: seq<Candle>, market: string, before: int, interval: nat)
    requires Contiguous(newer, market, before, interval)
    requires Contiguous(older, market, Back(before, |newer|, interval), interval)
    ensures Contiguous(older + newer, market, before, interval)
  {
    var all := older + newer;
    forall k | 0 <= k < |all| ensures all[k].market == market && all[k].openTime == Back(before, |all| - k, interval) {
      if k < |older| {
        BackTwice(before, |newer|, |older| - k, interval);
      } else {
        assert |all| - k == |newer| - (k - |older|);
      }
    }
  }

  /**
   Accepted candles are exactly as many as asked for, one per interval, ending where the first page was asked to end.
   */
  lemma {:induction false} CandlesAreContiguous(
    source: Source, market: string, interval: nat, page: nat, before: int, need: nat)
    ensures var r := Candles(source, market, interval, page, before, need);
      r.Ok? ==> |r.value| == need && Contiguous(r.value, market, before, interval)
    decreases need
  {
    if need > 0 {
      var size := Smallest(PAGE, need);
      var reply := source(page, before, size);
      if PageFault(reply, market, before, size, interval).None? {
        CandlesAreContiguous(source, market, interval, page + 1, Back(before, size, interval), need - size);
        var rest := Candles(source, market, interval, page + 1, Back(before, size, interval), need - size);
        if rest.Ok? {
          ContiguousJoins(rest.value, reply.mapped, market, before, interval);
        }
        hide Contiguous;
      }
    }
  }

  /** A source that answers every request with the candles of one history that end at the asked moment. */
  ghost predicate ServesAll(source: Source, history: seq<Candle>, anchor: int, interval: nat) {
    forall page: nat, k: nat, size: nat | size <= k <= |history| ::
      ServesPart(source, history, anchor, interval, page, k, size)
  }

  ghost predicate ServesPart(
    source: Source, history: seq<Candle>, anchor: int, interval: nat, page: nat, k: nat, size: nat)
    requires size <= k <= |history|
  {
    source(page, Back(anchor, |history| - k, interval), size) == Page(size, history[k - size..k])
  }

  lemma PartIsContiguous(history: seq<Candle>, market: string, anchor: int, interval: nat, k: nat, size: nat)
    requires Contiguous(history, market, anchor, interval) && size <= k <= |history|
    ensures Contiguous(history[k - size..k], market, Back(anchor, |history| - k, interval), interval)
  {
    var part := history[k - size..k];
    hide Back;
    forall j | 0 <= j < size
      ensures part[j].market == market
        && part[j].openTime == Back(Back(anchor, |history| - k, interval), size - j, interval)
    {
      assert part[j] == history[k - size + j];
      BackTwice(anchor, |history| - k, size - j, interval);
    }
  }

  /** From such a source the pager returns that whole history. */
  lemma {:induction false} HistoryIsPaged(
    source: Source, history: seq<Candle>, market: string, anchor: int, interval: nat, page: nat, k: nat)
    requires Contiguous(history, market, anchor, interval) && ServesAll(source, history, anchor, interval)
      && k <= |history|
    ensures Candles(source, market, interval, page, Back(anchor, |history| - k, interval), k) == Ok(history[..k])
    decreases k
  {
    if k > 0 {
      var size := Smallest(PAGE, k);
      assert ServesPart(source, history, anchor, interval, page, k, size);
      hide ServesAll;
      PartIsContiguous(history, market, anchor, interval, k, size);
      HistoryIsPaged(source, history, market, anchor, interval, page + 1, k - size);
      BackTwice(anchor, |history| - k, size, interval);
      hide Back;
      hide Contiguous;
      assert history[..k - size] + history[k - size..k] == history[..k];
    }
  }

  /** The check loop of one page, from its first candle to its last. */
  method CheckPage(mapped: seq<Candle>, market: string, before: int, interval: nat) returns (ok: bool)
    ensures ok == Contiguous(mapped, market, before, interval)
  {
    var index := 0;
    while index < |mapped|
      invariant 0 <= index <= |mapped|
      invariant forall k :: 0 <= k < index ==>
        mapped[k].market == market && mapped[k].openTime == Back(before, |mapped| - k, interval)
    {
      var candle := mapped[index];
      var expectedOpenTime := Back(before, |mapped| - index, interval);
      if candle.market != market || candle.openTime != expectedOpenTime {
        return false;
      }
      index := index + 1;
    }
    ok := true;
  }

  /** A page of `size` candles begins `size` intervals before its end. */
  lemma FirstOfPage(mapped: seq<Candle>, market: string, before: int, interval: nat)
    requires Contiguous(mapped, market, before, interval) && mapped != []
    ensures mapped[0].openTime == Back(before, |mapped|, interval)
  {
  }

  /** Just as many pages as hold `count` candles. */
  function PagesFor(count: nat): (pages: nat)
    ensures (pages - 1) * PAGE < count <= pages * PAGE
  {
    (count + PAGE - 1) / PAGE
  }

  /** All checks of one reply, in the pager's order. */
  method CheckReply(
    reply: PageReply, market: string, before: int, size: nat, interval: nat) returns (fault: Option<string>)
    ensures fault == PageFault(reply, market, before, size, interval)
  {
    hide Contiguous;
    if reply.RequestFailed? {
      return Some(reply.error);
    }
    if reply.NotCandles? || reply.rawLength != size {
      return Some("Upbit research history is incomplete");
    }
    if |reply.mapped| != size {
      return Some("Upbit research page contains incomplete candles");
    }
    var ok := CheckPage(reply.mapped, market, before, interval);
    if !ok {
      return Some("Upbit research history has a market, gap, duplicate, or cursor mismatch");
    }
    fault := None;
  }

  lemma SoundPage(reply: PageReply, market: string, before: int, size: nat, interval: nat)
    requires PageFault(reply, market, before, size, interval).None? && size > 0
    ensures reply.Page? && |reply.mapped| == size && reply.mapped[0].openTime == Back(before, size, interval)
  {
    FirstOfPage(reply.mapped, market, before, interval);
  }

  /** One step of the paging loop: a fault is the answer, and a sound page moves its candles to the front. */
  lemma PageCounts(
    source: Source, market: string, interval: nat, page: nat, before: int, need: nat, candles: seq<Candle>)
    requires need > 0
    ensures var size := Smallest(PAGE, need);
      var reply := source(page, before, size);
      var fault := PageFault(reply, market, before, size, interval);
      var all := Appended(Candles(source, market, interval, page, before, need), candles);
      if fault.Some? then all == Err(fault.value)
      else
        && reply.Page? && |reply.mapped| == size && reply.mapped[0].openTime == Back(before, size, interval)
        && all ==
          Appended(Candles(source, market, interval, page + 1, Back(before, size, interval), need - size),
          reply.mapped + candles)
  {
    hide Candles, PageFault, Back;
    var size := Smallest(PAGE, need);
    var reply := source(page, before, size);
    CandlesOfPage(source, market, interval, page, before, need);
    if PageFault(reply, market, before, size, interval).None? {
      SoundPage(reply, market, before, size, interval);
      AppendTwice(Candles(source, market, interval, page + 1, Back(before, size, interval), need - size), reply.mapped,
        candles);
    }
  }

  /** The paging loop, from an anchor back over as many pages as the count needs. */
  method CollectPages(source: Source, market: string, interval: nat, anchor: int, count: nat)
    returns (result: Result<seq<Candle>>, requests: seq<int>)
    ensures result == Candles(source, market, interval, 0, anchor, count)
    ensures result.Ok? ==> |requests| == PagesFor(count)
    ensures forall p :: 0 <= p < |requests| ==> requests[p] == Back(anchor, p * PAGE, interval)
  {
    assert Back(anchor, 0, interval) == anchor;
    hide Contiguous, Back, PageFault, Candles, PagesFor, Appended;
    requests := [];
    var before, candles: seq<Candle>, page := anchor, [], 0;
    AppendNone(Candles(source, market, interval, 0, anchor, count));
    var pages := PagesFor(count);
    while page < pages
      invariant 0 <= page <= pages && |requests| == page
      invariant |candles| == if page < pages then page * PAGE else count
      invariant before == Back(anchor, |candles|, interval)
      invariant forall p :: 0 <= p < |requests| ==> requests[p] == Back(anchor, p * PAGE, interval)
      invariant Candles(source, market, interval, 0, anchor, count) ==
        Appended(Candles(source, market, interval, page, before, count - |candles|), candles)
    {
      var pageSize := Smallest(PAGE, count - |candles|);
      var reply := source(page, before, pageSize);
      var fault := CheckReply(reply, market, before, pageSize, interval);
      PageCounts(source, market, interval, page, before, count - |candles|, candles);
      if fault.Some? {
        result := Err(fault.value);
        return;
      }
      BackTwice(anchor, |candles|, pageSize, interval);
      requests := requests + [before];
      candles := reply.mapped + candles;
      before := reply.mapped[0].openTime;
      page := page + 1;
    }
    NoMoreCandles(source, market, interval, page, before, candles);
    result := Ok(candles);
  }

  /**
   The pager. Success is exactly `count` candles of the market, one per interval, ending at the last interval completed
   by `asOf`, from as few pages as hold them.
   */
  method FetchResearchCandles(
    source: Source, markets: set<string>, market: string, asOf: real, count: int, interval: nat)
    returns (result: Result<seq<Candle>>, requests: seq<int>)
    requires interval > 0
    ensures result ==
      if !(200 <= count <= 4000) then Err("NUSA_RESEARCH_CANDLE_COUNT must be an integer in range")
      else if market !in markets then Err("unsupported research market")
      else Candles(source, market, interval, 0, Anchor(asOf, interval), count)
    ensures result.Ok? ==> |result.value| == count && Contiguous(result.value, market, Anchor(asOf, interval), interval)
    ensures result.Ok? ==> (|requests| - 1) * 200 < count <= |requests| * 200
    ensures forall p :: 0 <= p < |requests| ==> requests[p] == Back(Anchor(asOf, interval), p * 200, interval)
  {
    hide Anchor, Contiguous, Back, Candles;
    if !(200 <= count <= CEILING) {
      return Err("NUSA_RESEARCH_CANDLE_COUNT must be an integer in range"), [];
    }
    if market !in markets {
      return Err("unsupported research market"), [];
    }
    var anchor := Anchor(asOf, interval);
    CandlesAreContiguous(source, market, interval, 0, anchor, count);
    result, requests := CollectPages(source, market, interval, anchor, count);
  }

  lemma AppendNone(rest: Result<seq<Candle>>)
    ensures Appended(rest, []) == rest
  {
    if rest.Ok? {
      assert rest.value + [] == rest.value;
    }
  }

  lemma AppendTwice(rest: Result<seq<Candle>>, a: seq<Candle>, b: seq<Candle>)
    ensures Appended(Appended(rest, a), b) == Appended(rest, a + b)
  {
    if rest.Ok? {
      assert rest.value + a + b == rest.value + (a + b);
    }
  }
}
