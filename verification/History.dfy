/**
 The paginated readers of the futures history (`fetchKlines`, `fetchFunding` in scripts/fetch-futures-history.js). A
 server is a function from the number of the request and its start time to a reply: it may choose any page size, any
 rows and any failure. Row fields that are no finite number are None.
 */
module History {
  import opened Numbers
  import opened Prelude

  const START: int := 1672531200000
  const END: int := 1791936000000
  const BAR_MS: int := 14400000

  /** A reply: a failed request with its code, a body that is no array, or the rows of a page. */
  datatype Reply<Row> = HttpError(code: string) | NotAnArray | Rows(data: seq<Row>)

  type Server<!Row> = (nat, int) -> Reply<Row>

  // ----- Klines -----

  datatype Kline =
    | Malformed
    | Kline(openTime: Option<int>, open: Option<real>, high: Option<real>, low: Option<real>, close: Option<real>,
            volume: Option<real>, closeTime: Option<int>)

  predicate Priced(x: Option<real>) { x.Some? && x.value > 0.0 }

  predicate ValidValues(r: Kline) {
    && r.Kline? && Priced(r.open) && Priced(r.high) && Priced(r.low) && Priced(r.close)
    && r.volume.Some? && r.volume.value >= 0.0
    && r.high.value >= RealMax(RealMax(r.open.value, r.close.value), r.low.value)
    && r.low.value <= RealMin(RealMin(r.open.value, r.close.value), r.high.value)
  }

  /** The row opens the slot at `from` and closes it before the end of the range. */
  predicate FillsSlot(r: Kline, from: int) {
    r.Kline? && r.openTime == Some(from) && r.closeTime == Some(from + BAR_MS - 1) && from + BAR_MS - 1 < END
  }

  /** The error a row is refused with when the slot at `from` is next, in the order of the checks. */
  function RowError(r: Kline, from: int): Option<string> {
    if r.Malformed? then Some("KLINE_ROW_MALFORMED")
    else if !ValidValues(r) then Some("KLINE_VALUES_INVALID")
    else if !FillsSlot(r, from) then Some("KLINE_GAP_OR_UNALIGNED")
    else None
  }

  /** The error of the first refused row of a page. */
  function PageError(data: seq<Kline>, from: int): Option<string> {
    if data == [] then None
    else if RowError(data[0], from).Some? then RowError(data[0], from)
    else PageError(data[1..], from + BAR_MS)
  }

  /** The rows from `from` to the end that the server's pages make up, or the first error. */
  function Klines(server: Server<Kline>, page: nat, from: int): Result<seq<Kline>>
    decreases END - from
  {
    if from >= END then Ok([])
    else
      match server(page, from)
      case HttpError(code) => Err(code)
      case NotAnArray => Err("KLINES_EMPTY_OR_INVALID")
      case Rows(data) =>
        if data == [] then Err("KLINES_EMPTY_OR_INVALID")
        else if PageError(data, from).Some? then Err(PageError(data, from).value)
        else
          match Klines(server, page + 1, from + |data| * BAR_MS)
          case Err(e) => Err(e)
          case Ok(rest) => Ok(data + rest)
  }

  /** One valid row for each slot from `from` to the end. */
  ghost predicate Grid(rows: seq<Kline>, from: int) {
    && from + |rows| * BAR_MS == END
    && forall k :: 0 <= k < |rows| ==> ValidValues(rows[k]) && FillsSlot(rows[k], from + k * BAR_MS)
  }

  /** Valid prices are positive, the high the largest of the four and the low the smallest; volume is not negative. */
  lemma ValidMeans(r: Kline)
    ensures ValidValues(r) <==>
      && r.Kline? && r.open.Some? && r.high.Some? && r.low.Some? && r.close.Some? && r.volume.Some?
      && 0.0 < r.low.value && r.low.value <= r.open.value <= r.high.value
      && r.low.value <= r.close.value <= r.high.value
      && 0.0 <= r.volume.value
  {
  }

  /** The range is a whole number of four-hour slots, and a full history holds each of them once. */
  lemma GridIsWhole(rows: seq<Kline>)
    requires Grid(rows, START)
    ensures |rows| == 8292
    ensures forall k :: 0 <= k < |rows| ==>
      rows[k].Kline? && rows[k].openTime == Some(1672531200000 + k * 4 * 60 * 60 * 1000)
      && rows[k].closeTime == Some(1672531200000 + (k + 1) * 4 * 60 * 60 * 1000 - 1)
  {
    hide ValidValues;
  }

  lemma CleanRow(r: Kline, from: int)
    ensures RowError(r, from).None? <==> ValidValues(r) && FillsSlot(r, from)
  {
    hide ValidValues, FillsSlot;
    if r.Malformed? {
      assert !ValidValues(r) by { MalformedIsInvalid(r); }
    }
  }

  /** The first of three complaints: no row, values out of order, or a row for another slot. */
  lemma RowErrorTells(r: Kline, from: int)
    ensures RowError(r, from) == Some("KLINE_ROW_MALFORMED") <==> r.Malformed?
    ensures RowError(r, from) == Some("KLINE_VALUES_INVALID") <==> r.Kline? && !ValidValues(r)
    ensures RowError(r, from) == Some("KLINE_GAP_OR_UNALIGNED") <==> ValidValues(r) && !FillsSlot(r, from)
  {
    hide FillsSlot;
  }

  lemma MalformedIsInvalid(r: Kline)
    requires r.Malformed?
    ensures !ValidValues(r)
  {
  }

  lemma {:induction false} CleanPage(data: seq<Kline>, from: int)
    ensures PageError(data, from).None? <==>
      forall k :: 0 <= k < |data| ==> ValidValues(data[k]) && FillsSlot(data[k], from + k * BAR_MS)
    decreases |data|
  {
    hide ValidValues, FillsSlot, RowError;
    if data != [] {
      var rest := data[1..];
      CleanRow(data[0], from);
      CleanPage(rest, from + BAR_MS);
      assert from + 0 * BAR_MS == from;
      assert forall k :: 0 <= k < |rest| ==>
        rest[k] == data[k + 1] && from + BAR_MS + k * BAR_MS == from + (k + 1) * BAR_MS;
      assert forall k :: 1 <= k < |data| ==>
        data[k] == rest[k - 1] && from + BAR_MS + (k - 1) * BAR_MS == from + k * BAR_MS;
    }
  }

  lemma GridJoins(data: seq<Kline>, rest: seq<Kline>, from: int)
    requires forall k :: 0 <= k < |data| ==> ValidValues(data[k]) && FillsSlot(data[k], from + k * BAR_MS)
    requires Grid(rest, from + |data| * BAR_MS)
    ensures Grid(data + rest, from)
  {
    hide ValidValues, FillsSlot;
    forall k | 0 <= k < |data| + |rest|
      ensures ValidValues((data + rest)[k]) && FillsSlot((data + rest)[k], from + k * BAR_MS)
    {
      if k >= |data| {
        assert (data + rest)[k] == rest[k - |data|]
          && from + |data| * BAR_MS + (k - |data|) * BAR_MS == from + k * BAR_MS;
      }
    }
  }

  /** The cursor stands at the start of a slot, or at the end. */
  predicate OnGrid(from: int) {
    from <= END && (END - from) % BAR_MS == 0
  }

  /** A full page never passes the end of the range, so the cursor stays on the grid. */
  lemma PageStaysInside(data: seq<Kline>, from: int)
    requires |data| > 0 && OnGrid(from)
    requires forall k :: 0 <= k < |data| ==> FillsSlot(data[k], from + k * BAR_MS)
    ensures OnGrid(from + |data| * BAR_MS)
  {
    assert FillsSlot(data[|data| - 1], from + (|data| - 1) * BAR_MS);
  }

  lemma CleanPageStaysInside(data: seq<Kline>, from: int)
    requires |data| > 0 && OnGrid(from) && PageError(data, from).None?
    ensures from + |data| * BAR_MS <= END && OnGrid(from + |data| * BAR_MS)
  {
    CleanPage(data, from);
    hide PageError, FillsSlot, ValidValues;
    PageStaysInside(data, from);
  }

  /** Whatever the server's pages, rows that are accepted are the exact grid from the cursor to the end. */
  lemma {:induction false} KlinesAreGrid(server: Server<Kline>, page: nat, from: int)
    requires OnGrid(from)
    ensures Klines(server, page, from).Ok? ==> Grid(Klines(server, page, from).value, from)
    decreases END - from
  {
    hide ValidValues, FillsSlot, PageError;
    if from < END && server(page, from).Rows? && server(page, from).data != [] {
      var data := server(page, from).data;
      CleanPage(data, from);
      if PageError(data, from).None? {
        PageStaysInside(data, from);
        var next := from + |data| * BAR_MS;
        KlinesAreGrid(server, page + 1, next);
        if Klines(server, page + 1, next).Ok? {
          GridJoins(data, Klines(server, page + 1, next).value, from);
        }
      }
    }
  }

  /** A server that answers from one full history, as many rows at a time as it likes but at least one. */
  ghost predicate ServesHistory(server: Server<Kline>, history: seq<Kline>) {
    forall page: nat, k: nat | k < |history| :: ServesFrom(server, history, page, k)
  }

  ghost predicate ServesFrom(server: Server<Kline>, history: seq<Kline>, page: nat, k: nat)
    requires k < |history|
  {
    var reply := server(page, START + k * BAR_MS);
    reply.Rows? && 0 < |reply.data| <= |history| - k && reply.data == history[k..k + |reply.data|]
  }

  lemma HistoryPageIsClean(history: seq<Kline>, k: nat, n: nat)
    requires Grid(history, START) && k + n <= |history|
    ensures PageError(history[k..k + n], START + k * BAR_MS).None?
    ensures START + (k + n) * BAR_MS <= END && START + k * BAR_MS + n * BAR_MS == START + (k + n) * BAR_MS
  {
    hide ValidValues, FillsSlot, PageError;
    var data, from := history[k..k + n], START + k * BAR_MS;
    CleanPage(data, from);
    assert forall j :: 0 <= j < n ==> data[j] == history[k + j] && from + j * BAR_MS == START + (k + j) * BAR_MS;
  }

  /** One clean page in front of what the later pages make up. */
  lemma KlinesPage(server: Server<Kline>, page: nat, from: int, data: seq<Kline>)
    requires from < END && server(page, from) == Rows(data) && data != [] && PageError(data, from).None?
    ensures Klines(server, page, from) == Prepended(data, Klines(server, page + 1, from + |data| * BAR_MS))
  {
    hide PageError;
  }

  lemma CursorInHistory(history: seq<Kline>, k: nat)
    requires Grid(history, START) && k <= |history|
    ensures k < |history| <==> START + k * BAR_MS < END
  {
    hide ValidValues, FillsSlot;
  }

  /** What such a server answers for row `k`. */
  lemma HistoryPage(server: Server<Kline>, history: seq<Kline>, page: nat, k: nat) returns (n: nat)
    requires Grid(history, START) && ServesHistory(server, history) && k < |history|
    ensures 0 < n <= |history| - k && server(page, START + k * BAR_MS) == Rows(history[k..k + n])
    ensures PageError(history[k..k + n], START + k * BAR_MS).None?
    ensures START + k * BAR_MS + n * BAR_MS == START + (k + n) * BAR_MS <= END
  {
    assert ServesFrom(server, history, page, k);
    hide ServesHistory, Grid, PageError;
    n := |server(page, START + k * BAR_MS).data|;
    HistoryPageIsClean(history, k, n);
  }

  /** Page sizes do not matter: from such a server the reader returns that history. */
  lemma {:induction false} HistoryIsRead(server: Server<Kline>, history: seq<Kline>, page: nat, k: nat)
    requires Grid(history, START) && ServesHistory(server, history) && k <= |history|
    ensures Klines(server, page, START + k * BAR_MS) == Ok(history[k..])
    decreases |history| - k
  {
    hide Grid, PageError, ServesHistory;
    var from := START + k * BAR_MS;
    CursorInHistory(history, k);
    if k < |history| {
      hide Klines;
      var n := HistoryPage(server, history, page, k);
      KlinesPage(server, page, from, history[k..k + n]);
      HistoryIsRead(server, history, page + 1, k + n);
      assert history[k..] == history[k..k + n] + history[k + n..];
    } else {
      assert history[k..] == [];
    }
  }

  /** The row loop of one page: rows are taken up to the first refused one. */
  method TakePage(data: seq<Kline>, start: int) returns (error: Option<string>, rows: seq<Kline>, from: int)
    ensures error == PageError(data, start)
    ensures error.None? ==> rows == data && from == start + |data| * BAR_MS
  {
    hide RowError;
    rows, from := [], start;
    var k := 0;
    while k < |data|
      invariant 0 <= k <= |data| && from == start + k * BAR_MS && rows == data[..k]
      invariant PageError(data, start) == PageError(data[k..], from)
    {
      error := RowError(data[k], from);
      if error.Some? {
        return;
      }
      assert data[k..][1..] == data[k + 1..];
      rows := rows + [data[k]];
      from := from + BAR_MS;
      k := k + 1;
    }
    assert data[k..] == [];
    error := None;
  }

  /** The reader: it returns what the server's pages make up, and its final count test never fails. */
  method FetchKlines(server: Server<Kline>) returns (result: Result<seq<Kline>>)
    ensures result == Klines(server, 0, START)
    ensures result.Ok? ==> Grid(result.value, START)
  {
    assert OnGrid(START);
    KlinesAreGrid(server, 0, START);
    hide Grid, PageError, ValidValues, FillsSlot, OnGrid;
    var rows, from, page := [], START, 0;
    PrependNone(Klines(server, 0, START));
    while from < END
      invariant from <= END && OnGrid(from)
      invariant Klines(server, 0, START) == Prepended(rows, Klines(server, page, from))
      decreases END - from
    {
      var reply := server(page, from);
      if reply.HttpError? {
        return Err(reply.code);
      }
      if reply.NotAnArray? || reply.data == [] {
        return Err("KLINES_EMPTY_OR_INVALID");
      }
      var error, taken, next := TakePage(reply.data, from);
      if error.Some? {
        return Err(error.value);
      }
      CleanPageStaysInside(reply.data, from);
      KlinesPage(server, page, from, reply.data);
      PrependTwice(rows, reply.data, Klines(server, page + 1, next));
      rows, from := rows + taken, next;
      page := page + 1;
    }
    assert from == END && Klines(server, page, from) == Ok([]);
    assert rows + [] == rows;
    var expected := (END - START) / BAR_MS;
    if |rows| != expected {
      GridLength(rows);
      assert false;
    }
    result := Ok(rows);
  }

  lemma GridLength(rows: seq<Kline>)
    requires Grid(rows, START)
    ensures |rows| == (END - START) / BAR_MS
  {
  }

  function Prepended<T>(rows: seq<T>, rest: Result<seq<T>>): Result<seq<T>> {
    match rest
    case Err(e) => Err(e)
    case Ok(more) => Ok(rows + more)
  }

  lemma PrependNone<T>(rest: Result<seq<T>>)
    ensures Prepended([], rest) == rest
  {
    if rest.Ok? {
      assert [] + rest.value == rest.value;
    }
  }

  lemma PrependTwice<T>(a: seq<T>, b: seq<T>, rest: Result<seq<T>>)
    ensures Prepended(a, Prepended(b, rest)) == Prepended(a + b, rest)
  {
    if rest.Ok? {
      assert a + (b + rest.value) == a + b + rest.value;
    }
  }

  // ----- Funding -----

  const FUNDING_MINIMUM: nat := 3 * 365

  datatype Funding = Funding(symbol: Option<string>, time: Option<int>, rate: Option<real>)

  /** A row of the wanted symbol with a rate and a stamp after `last` and before the end. */
  predicate NextFunding(r: Funding, symbol: string, last: int) {
    r.symbol == Some(symbol) && r.time.Some? && r.rate.Some? && last < r.time.value < END
  }

  /** Whether a whole page follows on from `last`. */
  predicate GoodPage(data: seq<Funding>, symbol: string, last: int) {
    data == [] || (NextFunding(data[0], symbol, last) && GoodPage(data[1..], symbol, data[0].time.value))
  }

  function LastStamp(data: seq<Funding>, symbol: string, last: int): int
    requires GoodPage(data, symbol, last)
    ensures last <= LastStamp(data, symbol, last) && (data != [] ==> last < LastStamp(data, symbol, last) < END)
  {
    if data == [] then last else LastStamp(data[1..], symbol, data[0].time.value)
  }

  /** The rows after `last` that the server's pages make up; an empty page ends them. */
  function Fundings(server: Server<Funding>, symbol: string, page: nat, last: int): Result<seq<Funding>>
    decreases END - last
  {
    if last + 1 >= END then Ok([])
    else
      match server(page, last + 1)
      case HttpError(code) => Err(code)
      case NotAnArray => Err("FUNDING_INVALID")
      case Rows(data) =>
        if data == [] then Ok([])
        else if !GoodPage(data, symbol, last) then Err("FUNDING_ROW_INVALID_OR_UNORDERED")
        else Prepended(data, Fundings(server, symbol, page + 1, LastStamp(data, symbol, last)))
  }

  /** Rows of one symbol whose stamps increase strictly from after `last` to before the end. */
  ghost predicate Ledger(rows: seq<Funding>, symbol: string, last: int) {
    && (forall k :: 0 <= k < |rows| ==> NextFunding(rows[k], symbol, last))
    && forall j, k :: 0 <= j < k < |rows| ==> rows[j].time.value < rows[k].time.value
  }

  lemma {:induction false} GoodPageIsLedger(data: seq<Funding>, symbol: string, last: int)
    ensures GoodPage(data, symbol, last) <==> Ledger(data, symbol, last)
    ensures GoodPage(data, symbol, last) && data != [] ==> Some(LastStamp(data, symbol, last)) == data[|data| - 1].time
    decreases |data|
  {
    if data != [] {
      var rest := data[1..];
      assert forall k :: 1 <= k < |data| ==> data[k] == rest[k - 1];
      assert forall k :: 0 <= k < |rest| ==> rest[k] == data[k + 1];
      if NextFunding(data[0], symbol, last) {
        GoodPageIsLedger(rest, symbol, data[0].time.value);
      }
    }
  }

  lemma LedgerJoins(data: seq<Funding>, rest: seq<Funding>, symbol: string, last: int, mid: int)
    requires data != [] && Ledger(data, symbol, last) && data[|data| - 1].time == Some(mid) && Ledger(rest, symbol, mid)
    ensures Ledger(data + rest, symbol, last)
  {
    var all := data + rest;
    assert NextFunding(data[|data| - 1], symbol, last);
    assert forall j :: 0 <= j < |data| ==> data[j].time.value <= mid;
    forall k | 0 <= k < |all| ensures NextFunding(all[k], symbol, last) {
      assert k >= |data| ==> all[k] == rest[k - |data|] && NextFunding(rest[k - |data|], symbol, mid);
    }
  }

  /**
   Whatever the server's pages, accepted rows are of the symbol and their stamps increase strictly within the range.
   */
  lemma {:induction false} FundingsAreLedger(server: Server<Funding>, symbol: string, page: nat, last: int)
    ensures Fundings(server, symbol, page, last).Ok? ==>
      Ledger(Fundings(server, symbol, page, last).value, symbol, last)
    decreases END - last
  {
    if last + 1 < END && server(page, last + 1).Rows? {
      var data := server(page, last + 1).data;
      if data != [] && GoodPage(data, symbol, last) {
        GoodPageIsLedger(data, symbol, last);
        var mid := LastStamp(data, symbol, last);
        FundingsAreLedger(server, symbol, page + 1, mid);
        var rest := Fundings(server, symbol, page + 1, mid);
        if rest.Ok? {
          LedgerJoins(data, rest.value, symbol, last, mid);
        }
        hide Ledger, GoodPage, LastStamp;
      }
    }
  }

  /** The stamp of the row before row `k`, or the one before the range. */
  function Cursor(ledger: seq<Funding>, k: nat): int
    requires k <= |ledger|
  {
    if k == 0 || ledger[k - 1].time.None? then START - 1 else ledger[k - 1].time.value
  }

  /** A server that answers with the next rows of one ledger, at least one while any is left. */
  ghost predicate ServesLedger(server: Server<Funding>, ledger: seq<Funding>) {
    forall page: nat, k: nat | k <= |ledger| :: ServesLedgerFrom(server, ledger, page, k)
  }

  ghost predicate ServesLedgerFrom(server: Server<Funding>, ledger: seq<Funding>, page: nat, k: nat)
    requires k <= |ledger|
  {
    var reply := server(page, Cursor(ledger, k) + 1);
    && reply.Rows? && |reply.data| <= |ledger| - k && reply.data == ledger[k..k + |reply.data|]
    && (reply.data == [] ==> k == |ledger|)
  }

  lemma LedgerPart(ledger: seq<Funding>, symbol: string, k: nat, n: nat)
    requires Ledger(ledger, symbol, START - 1) && k + n <= |ledger|
    ensures Ledger(ledger[k..k + n], symbol, Cursor(ledger, k))
    ensures n > 0 ==> ledger[k..k + n][n - 1].time == Some(Cursor(ledger, k + n))
  {
    var part := ledger[k..k + n];
    assert forall j :: 0 <= j < n ==> part[j] == ledger[k + j] && NextFunding(ledger[k + j], symbol, START - 1);
    if k > 0 {
      assert NextFunding(ledger[k - 1], symbol, START - 1);
    }
  }

  lemma FundingsPage(server: Server<Funding>, symbol: string, page: nat, last: int, data: seq<Funding>)
    requires last + 1 < END && server(page, last + 1) == Rows(data) && data != [] && GoodPage(data, symbol, last)
    ensures Fundings(server, symbol, page, last) ==
      Prepended(data, Fundings(server, symbol, page + 1, LastStamp(data, symbol, last)))
  {
    hide GoodPage, LastStamp;
  }

  /** What such a server answers at the cursor of row `k`. */
  lemma LedgerPage(server: Server<Funding>, ledger: seq<Funding>, symbol: string, page: nat, k: nat) returns (n: nat)
    requires Ledger(ledger, symbol, START - 1) && ServesLedger(server, ledger) && k <= |ledger|
    ensures k + n <= |ledger| && server(page, Cursor(ledger, k) + 1) == Rows(ledger[k..k + n])
      && (n == 0 ==> k == |ledger|)
    ensures GoodPage(ledger[k..k + n], symbol, Cursor(ledger, k))
    ensures n > 0 ==> LastStamp(ledger[k..k + n], symbol, Cursor(ledger, k)) == Cursor(ledger, k + n)
  {
    assert ServesLedgerFrom(server, ledger, page, k);
    hide ServesLedger, Cursor;
    n := |server(page, Cursor(ledger, k) + 1).data|;
    LedgerPart(ledger, symbol, k, n);
    GoodPageIsLedger(ledger[k..k + n], symbol, Cursor(ledger, k));
    hide Ledger, GoodPage, LastStamp;
  }

  /** Page sizes do not matter: from such a server the reader returns the whole ledger, missing no row. */
  lemma {:induction false} LedgerIsRead(
    server: Server<Funding>, ledger: seq<Funding>, symbol: string, page: nat, k: nat)
    requires Ledger(ledger, symbol, START - 1) && ServesLedger(server, ledger) && k <= |ledger|
    ensures Fundings(server, symbol, page, Cursor(ledger, k)) == Ok(ledger[k..])
    decreases |ledger| - k
  {
    var last := Cursor(ledger, k);
    if last + 1 >= END {
      NothingAfterEnd(ledger, symbol, k);
    } else {
      var n := LedgerPage(server, ledger, symbol, page, k);
      hide Ledger, GoodPage, LastStamp, ServesLedger, Cursor;
      if n > 0 {
        FundingsPage(server, symbol, page, last, ledger[k..k + n]);
        LedgerIsRead(server, ledger, symbol, page + 1, k + n);
        hide Fundings;
        assert ledger[k..] == ledger[k..k + n] + ledger[k + n..];
      } else {
        assert ledger[k..] == [] && ledger[k..k + n] == [];
      }
    }
  }

  lemma NothingAfterEnd(ledger: seq<Funding>, symbol: string, k: nat)
    requires Ledger(ledger, symbol, START - 1) && k <= |ledger| && Cursor(ledger, k) + 1 >= END
    ensures ledger[k..] == []
  {
    assert k < |ledger| ==> NextFunding(ledger[k], symbol, START - 1);
    assert k > 0 ==> NextFunding(ledger[k - 1], symbol, START - 1);
  }

  /**
   The reader: the server's rows in order, or an error when a page fails, a row does not follow on, or rows are too few.
   */
  method FetchFunding(server: Server<Funding>, symbol: string) returns (result: Result<seq<Funding>>)
    ensures var rows := Fundings(server, symbol, 0, START - 1);
      result == if rows.Ok? && |rows.value| < FUNDING_MINIMUM then Err("FUNDING_TOO_SHORT") else rows
    ensures result.Ok? ==> Ledger(result.value, symbol, START - 1) && |result.value| >= FUNDING_MINIMUM
  {
    FundingsAreLedger(server, symbol, 0, START - 1);
    hide Ledger;
    var rows, last, page := [], START - 1, 0;
    PrependNone(Fundings(server, symbol, 0, START - 1));
    var from := START;
    while from < END
      invariant START - 1 <= last && from == last + 1
      invariant Fundings(server, symbol, 0, START - 1) == Prepended(rows, Fundings(server, symbol, page, last))
      decreases END - from
    {
      var reply := server(page, from);
      if reply.HttpError? {
        return Err(reply.code);
      }
      if reply.NotAnArray? {
        return Err("FUNDING_INVALID");
      }
      if reply.data == [] {
        break;
      }
      ghost var before, start := rows, last;
      var k := 0;
      while k < |reply.data|
        invariant 0 <= k <= |reply.data| && start <= last && (k > 0 ==> start < last)
          && rows == before + reply.data[..k]
        invariant GoodPage(reply.data, symbol, start) == GoodPage(reply.data[k..], symbol, last)
        invariant GoodPage(reply.data, symbol, start) ==>
          LastStamp(reply.data, symbol, start) == LastStamp(reply.data[k..], symbol, last)
      {
        var r := reply.data[k];
        if !NextFunding(r, symbol, last) {
          return Err("FUNDING_ROW_INVALID_OR_UNORDERED");
        }
        assert reply.data[k..][1..] == reply.data[k + 1..];
        rows := rows + [r];
        last := r.time.value;
        k := k + 1;
      }
      assert reply.data[k..] == [] && reply.data[..k] == reply.data;
      PrependTwice(before, reply.data, Fundings(server, symbol, page + 1, last));
      from := last + 1;
      page := page + 1;
    }
    assert Fundings(server, symbol, page, last) == Ok([]) && rows + [] == rows;
    if |rows| < FUNDING_MINIMUM {
      return Err("FUNDING_TOO_SHORT");
    }
    result := Ok(rows);
  }
}
