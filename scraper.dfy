/**
 * The acquisition side of the scraper (src/services/scraper.service.js):
 * the resource-blocking rule every page gets, the retry loop, the upstream
 * URL builder, row-to-record extraction, the lazily launched browser and the
 * `getAllTrades` pipeline with its three selector wrappers.
 *
 * The browser is not modelled: what each call into it does (launch, open a
 * page, set the page up, load and read the table, close) is an input, an
 * `AttemptScript` per attempt, and the model tracks what the service does
 * with those outcomes.
 */
module Scraper {
  import opened Js

  const BaseUrl: string := "https://www.capitoltrades.com/trades"

  // ---------------------------------------------------------------------
  // Request interception (getPage, lines 45-51)
  // ---------------------------------------------------------------------

  datatype Interception = Abort | Continue

  const BlockedResourceTypes: seq<string> := ["image", "stylesheet", "font"]

  /** The decision for one subresource request of a page. */
  function Intercept(resourceType: string): (d: Interception)
    ensures d == Abort <==> resourceType == "image" || resourceType == "stylesheet" || resourceType == "font"
    ensures d == Continue <==> !(resourceType == "image" || resourceType == "stylesheet" || resourceType == "font")
  {
    if resourceType in BlockedResourceTypes then Abort else Continue
  }

  // ---------------------------------------------------------------------
  // withRetry (lines 59-73)
  // ---------------------------------------------------------------------

  /** What one run of `withRetry` did: how it ended, how often it called `fn`, how often it slept. */
  datatype RetryRun<+T, +E> = RetryRun(result: Completion<T, Option<E>>, calls: nat, waits: nat)

  /** The number of loop turns `for (let i = 0; i < maxRetries; i++)` allows. */
  function Attempts(maxRetries: int): nat {
    if maxRetries < 0 then 0 else maxRetries
  }

  /** The first call among `i .. n-1` that returns, or `n` when every one of them throws. */
  function FirstSuccess<T, E>(fn: nat -> Completion<T, E>, i: nat, n: nat): (k: nat)
    requires i <= n
    ensures i <= k <= n
    ensures forall j :: i <= j < k ==> fn(j).Threw?
    ensures k < n ==> fn(k).Returned?
    decreases n - i
  {
    if i == n then n else if fn(i).Returned? then i else FirstSuccess(fn, i + 1, n)
  }

  /**
   * `withRetry(fn, maxRetries)` when its `j`-th call of `fn` completes as
   * `fn(j)`: the value of the first call that returns, with no call after it;
   * otherwise the error of the last call (`undefined`, here `None`, when no
   * call was made). One delay follows every failed call, the last included.
   */
  function RetrySpec<T, E>(fn: nat -> Completion<T, E>, maxRetries: int): (r: RetryRun<T, E>)
    ensures r.calls <= Attempts(maxRetries)
    ensures forall j :: 0 <= j < r.waits ==> fn(j).Threw?
    ensures r.result.Returned? ==> r.calls == r.waits + 1 && fn(r.waits) == Returned(r.result.value)
    ensures r.result.Threw? ==> r.calls == r.waits == Attempts(maxRetries)
    ensures r.result.Threw? ==> r.result.error == (if r.calls == 0 then None else Some(fn(r.calls - 1).error))
  {
    var n := Attempts(maxRetries);
    var k := FirstSuccess(fn, 0, n);
    if k < n then RetryRun(Returned(fn(k).value), k + 1, k)
    else RetryRun(Threw(if n == 0 then None else Some(fn(n - 1).error)), n, n)
  }

  /** An operation that fails `k` times and then returns is called `k + 1` times, when the bound allows it. */
  lemma RetryReturnsFirstSuccess<T, E>(fn: nat -> Completion<T, E>, maxRetries: int, k: nat)
    requires k < maxRetries && fn(k).Returned?
    requires forall j :: 0 <= j < k ==> fn(j).Threw?
    ensures RetrySpec(fn, maxRetries) == RetryRun(Returned(fn(k).value), k + 1, k)
  {
    var f := FirstSuccess(fn, 0, Attempts(maxRetries));
    assert k < f ==> fn(k).Threw?;
    assert fn(f).Returned?;
  }

  /** An operation that always fails is called exactly `maxRetries` times and its last error is rethrown. */
  lemma RetryRethrowsLastError<T, E>(fn: nat -> Completion<T, E>, maxRetries: int)
    requires forall j :: 0 <= j < maxRetries ==> fn(j).Threw?
    ensures var n := Attempts(maxRetries);
      RetrySpec(fn, maxRetries) == RetryRun(Threw(if n == 0 then None else Some(fn(n - 1).error)), n, n)
  {
    var n := Attempts(maxRetries);
    var f := FirstSuccess(fn, 0, n);
    assert f < n ==> fn(f).Threw?;
  }

  lemma FailuresExtend<T, E>(fn: nat -> Completion<T, E>, i: nat)
    requires forall j :: 0 <= j < i ==> fn(j).Threw?
    requires fn(i).Threw?
    ensures forall j :: 0 <= j < i + 1 ==> fn(j).Threw?
  {
  }

  /** The loop's exit state, once every allowed call has failed, is the specified run. */
  lemma RetryExhausted<T, E>(fn: nat -> Completion<T, E>, maxRetries: int, i: nat, lastError: Option<E>)
    requires i == Attempts(maxRetries)
    requires forall j :: 0 <= j < i ==> fn(j).Threw?
    requires lastError == if i == 0 then None else Some(fn(i - 1).error)
    ensures RetrySpec(fn, maxRetries) == RetryRun(Threw(lastError), i, i)
  {
    RetryRethrowsLastError(fn, maxRetries);
  }

  /** A bound of zero or less makes no call at all and throws `undefined`. */
  lemma RetryWithoutAttempts<T, E>(fn: nat -> Completion<T, E>, maxRetries: int)
    requires maxRetries <= 0
    ensures RetrySpec(fn, maxRetries) == RetryRun(Threw(None), 0, 0)
  {
  }

  /** The retry loop over an operation whose `j`-th call completes as `fn(j)`. */
  method WithRetry<T, E>(fn: nat -> Completion<T, E>, maxRetries: int) returns (run: RetryRun<T, E>)
    ensures run == RetrySpec(fn, maxRetries)
  {
    var lastError: Option<E> := None;
    var waits := 0;
    var i := 0;
    while i < maxRetries
      invariant 0 <= i <= Attempts(maxRetries)
      invariant waits == i
      invariant forall j :: 0 <= j < i ==> fn(j).Threw?
      invariant lastError == if i == 0 then None else Some(fn(i - 1).error)
    {
      match fn(i)
      case Returned(v) =>
        RetryReturnsFirstSuccess(fn, maxRetries, i);
        return RetryRun(Returned(v), i + 1, waits);
      case Threw(e) =>
        lastError := Some(e);
        waits := waits + 1;
      i := i + 1;
    }
    RetryRethrowsLastError(fn, maxRetries);
    run := RetryRun(Threw(lastError), i, waits);
  }

  /** The default bound, `parseInt(MAX_RETRIES) || 3`, evaluated at each call. */
  function DefaultMaxRetries(env: map<string, string>): (n: int)
    ensures n != 0
    ensures EnvGet(env, "MAX_RETRIES").None? ==> n == 3
  {
    ParseIntOr(EnvGet(env, "MAX_RETRIES"), 3)
  }

  /** The delay after a failure, `parseInt(RETRY_DELAY_MS) || 1000`, evaluated at each failure. */
  function RetryDelayMs(env: map<string, string>): (ms: int)
    ensures ms != 0
    ensures EnvGet(env, "RETRY_DELAY_MS").None? ==> ms == 1000
  {
    ParseIntOr(EnvGet(env, "RETRY_DELAY_MS"), 1000)
  }

  // ---------------------------------------------------------------------
  // buildUrl (lines 103-109)
  // ---------------------------------------------------------------------

  /** A URL as the base address and its query pairs in order (percent-encoding is not modelled). */
  datatype Url = Url(base: string, query: seq<(string, string)>)

  /** The query pair one filter entry contributes: one when its value is truthy, none otherwise. */
  function QueryPair(entry: (string, JsValue)): seq<(string, string)> {
    if Truthy(entry.1) then [(entry.0, ToJsString(entry.1))] else []
  }

  /** The query `buildUrl` produces for `filters`, entry by entry. */
  function QueryPairs(filters: Entries): (q: seq<(string, string)>)
    ensures |q| <= |filters|
    decreases |filters|
  {
    if filters == [] then [] else QueryPair(filters[0]) + QueryPairs(filters[1..])
  }

  lemma {:induction false} QueryPairsAppend(a: Entries, b: Entries)
    ensures QueryPairs(a + b) == QueryPairs(a) + QueryPairs(b)
    decreases |a|
  {
    if a != [] {
      assert (a + b)[1..] == a[1..] + b;
      QueryPairsAppend(a[1..], b);
    } else {
      assert a + b == b;
    }
  }

  lemma SplitAround<T>(s: seq<T>, i: nat)
    requires i < |s|
    ensures s == s[..i] + ([s[i]] + s[i + 1..])
  {
  }

  lemma QueryPairsCons(entry: (string, JsValue), rest: Entries)
    ensures QueryPairs([entry] + rest) == QueryPair(entry) + QueryPairs(rest)
  {
    assert ([entry] + rest)[1..] == rest;
  }

  /** The query splits around any one entry. */
  lemma QueryPairsSplit(filters: Entries, i: nat)
    requires i < |filters|
    ensures QueryPairs(filters) == QueryPairs(filters[..i]) + (QueryPair(filters[i]) + QueryPairs(filters[i + 1..]))
  {
    SplitAround(filters, i);
    QueryPairsAppend(filters[..i], [filters[i]] + filters[i + 1..]);
    QueryPairsCons(filters[i], filters[i + 1..]);
  }

  /** A filter entry with a falsy value (`0`, `''`, `undefined`, ...) leaves the query as if it were absent. */
  lemma QueryOmitsFalsyEntry(filters: Entries, i: nat)
    requires i < |filters| && !Truthy(filters[i].1)
    ensures QueryPairs(filters) == QueryPairs(filters[..i] + filters[i + 1..])
  {
    QueryPairsSplit(filters, i);
    var after := QueryPairs(filters[i + 1..]);
    assert QueryPair(filters[i]) + after == after;
    QueryPairsAppend(filters[..i], filters[i + 1..]);
  }

  /** A filter entry with a truthy value adds exactly its own pair, between the pairs of the entries before and after it. */
  lemma QueryKeepsTruthyEntry(filters: Entries, i: nat)
    requires i < |filters| && Truthy(filters[i].1)
    ensures QueryPairs(filters) ==
      QueryPairs(filters[..i]) + [(filters[i].0, ToJsString(filters[i].1))] + QueryPairs(filters[i + 1..])
  {
    QueryPairsSplit(filters, i);
  }

  /** Builds the upstream URL, appending one pair per truthy filter value, in entry order. */
  method BuildUrl(base: string, filters: Entries) returns (url: Url)
    ensures url == Url(base, QueryPairs(filters))
  {
    var query: seq<(string, string)> := [];
    for i := 0 to |filters|
      invariant query == QueryPairs(filters[..i])
    {
      var (key, value) := filters[i];
      QueryPairsAppend(filters[..i], [filters[i]]);
      assert filters[..i + 1] == filters[..i] + [filters[i]];
      if Truthy(value) {
        query := query + [(key, ToJsString(value))];
      }
    }
    assert filters[..|filters|] == filters;
    url := Url(base, query);
  }

  /**
   * A selector set on filters that do not have it yet adds exactly one pair
   * at the end of the query: two selectors on the same filters give queries
   * that differ only in that last pair.
   */
  lemma SelectorAppendsOnePair(filters: Entries, key: string, value: JsValue)
    requires !HasKey(filters, key) && Truthy(value)
    ensures QueryPairs(SetProperty(filters, key, value)) == QueryPairs(filters) + [(key, ToJsString(value))]
  {
    QueryPairsAppend(filters, [(key, value)]);
  }

  /** The caller's filter object, which the selector wrappers change in place. */
  class FilterObject {
    var entries: Entries

    constructor (entries: Entries)
      ensures this.entries == entries
    {
      this.entries := entries;
    }

    /** `filters[key] = value`. */
    method Set(key: string, value: JsValue)
      modifies this
      ensures entries == SetProperty(old(entries), key, value)
    {
      entries := SetProperty(entries, key, value);
    }
  }

  // ---------------------------------------------------------------------
  // extractTradeData (lines 78-98)
  // ---------------------------------------------------------------------

  /** One table row: the text content of the first cell carrying each `data-th` label. */
  type Row = map<string, string>

  /** One record per row; a field is absent when the row has no cell with its label. */
  datatype Trade = Trade(
    politician: Option<string>,
    ticker: Option<string>,
    company: Option<string>,
    tradeType: Option<string>,
    tradeSize: Option<string>,
    traded: Option<string>,
    disclosed: Option<string>)

  const Labels: seq<string> := ["Politician", "Ticker", "Company", "Trade Type", "Trade Size", "Traded", "Disclosed"]

  /** `row.querySelector('[data-th="label"]')?.textContent?.trim()`. */
  function Cell(row: Row, name: string): Option<string> {
    if name in row then Some(Trim(row[name])) else None
  }

  function TradeOf(row: Row): Trade {
    Trade(Cell(row, "Politician"), Cell(row, "Ticker"), Cell(row, "Company"), Cell(row, "Trade Type"),
          Cell(row, "Trade Size"), Cell(row, "Traded"), Cell(row, "Disclosed"))
  }

  /** The fields of a record in label order. */
  function Fields(t: Trade): seq<Option<string>> {
    [t.politician, t.ticker, t.company, t.tradeType, t.tradeSize, t.traded, t.disclosed]
  }

  lemma FieldsAreCells(row: Row)
    ensures forall j :: 0 <= j < |Labels| ==> Fields(TradeOf(row))[j] == Cell(row, Labels[j])
  {
  }

  /**
   * Field `i` of a row's record is the trimmed text of the cell labelled
   * `Labels[i]`, without the whitespace around it, or absent when there is
   * no such cell.
   */
  lemma TradeFieldsFromCells(row: Row, i: nat)
    requires i < |Labels|
    ensures Fields(TradeOf(row))[i].None? <==> Labels[i] !in row
    ensures Fields(TradeOf(row))[i].Some? ==>
      var text := Fields(TradeOf(row))[i].value;
      text == Trim(row[Labels[i]]) && (text != [] ==> !IsWhitespace(text[0]) && !IsWhitespace(text[|text| - 1]))
  {
    FieldsAreCells(row);
  }

  /** A row that lacks the cell labelled `name` gives the same record with only that label's field absent. */
  lemma MissingCellBlanksOnlyItsField(row: Row, name: string, j: nat)
    requires j < |Labels|
    ensures Fields(TradeOf(row - {name}))[j] == if Labels[j] == name then None else Fields(TradeOf(row))[j]
  {
    FieldsAreCells(row);
    FieldsAreCells(row - {name});
  }

  /** Walks the rows in document order, pushing one record per row. */
  method ExtractTradeData(rows: seq<Row>) returns (trades: seq<Trade>)
    ensures |trades| == |rows|
    ensures forall i :: 0 <= i < |rows| ==> trades[i] == TradeOf(rows[i])
  {
    trades := [];
    for i := 0 to |rows|
      invariant |trades| == i
      invariant forall j :: 0 <= j < i ==> trades[j] == TradeOf(rows[j])
    {
      trades := trades + [TradeOf(rows[i])];
    }
  }

  // ---------------------------------------------------------------------
  // One attempt of getAllTrades (lines 115-133, with getPage and initBrowser)
  // ---------------------------------------------------------------------

  /** An error thrown by the browser layer. */
  datatype BrowserError = BrowserError(message: string)

  /**
   * What the browser does on one attempt: `puppeteer.launch` (only called
   * while the slot is empty) gives a browser id or throws; `newPage`; the
   * page setup (viewport, user agent, request interception); the load
   * (`goto`, `waitForSelector`, `evaluate`) gives the table rows or throws;
   * `page.close`.
   */
  datatype AttemptScript = AttemptScript(
    launch: Completion<nat, BrowserError>,
    newPage: Completion<(), BrowserError>,
    setup: Completion<(), BrowserError>,
    load: Completion<seq<Row>, BrowserError>,
    close: Completion<(), BrowserError>)

  /** The result `getAllTrades` returns: `{page, limit, trades}`. */
  datatype TradesPage = TradesPage(page: JsValue, limit: JsValue, trades: seq<Trade>)

  /** The browser slot after `initBrowser`: kept when set, filled only by a launch that returned. */
  function SlotAfterLaunch(slot: Option<nat>, launch: Completion<nat, BrowserError>): (r: Option<nat>)
    ensures slot.Some? ==> r == slot
    ensures slot.None? ==> (r.Some? <==> launch.Returned?)
  {
    if slot.Some? then slot else if launch.Returned? then Some(launch.value) else None
  }

  /** What `getPage` did: how it ended, the browser slot afterwards, whether a page was opened and how often it was closed. */
  datatype PageRun = PageRun(result: Completion<(), BrowserError>, browser: Option<nat>, pageOpened: bool, closeCalls: nat)

  /**
   * `getPage`. With `releaseOnSetupFailure` false this is the code as
   * written: a page whose setup throws is never closed, because the
   * try/finally in getAllTrades only starts once getPage has returned.
   * With it true, the page is closed before the setup error propagates.
   */
  function GetPageWith(script: AttemptScript, slot: Option<nat>, releaseOnSetupFailure: bool): PageRun {
    var browser := SlotAfterLaunch(slot, script.launch);
    if browser.None? then PageRun(Threw(script.launch.error), browser, false, 0)
    else if script.newPage.Threw? then PageRun(Threw(script.newPage.error), browser, false, 0)
    else if script.setup.Threw? then
      if !releaseOnSetupFailure then PageRun(Threw(script.setup.error), browser, true, 0)
      else if script.close.Threw? then PageRun(Threw(script.close.error), browser, true, 1)
      else PageRun(Threw(script.setup.error), browser, true, 1)
    else PageRun(Returned(()), browser, true, 0)
  }

  /** As written, a page whose setup throws is opened and never closed. */
  lemma AsWrittenSetupFailureLeaksPage()
    ensures var script := AttemptScript(Returned(1), Returned(()), Threw(BrowserError("setViewport failed")),
                                        Returned([]), Returned(()));
      var run := GetPageWith(script, None, false);
      run.pageOpened && run.closeCalls == 0 && run.result.Threw?
  {
  }

  /** Corrected, a page that `getPage` opens and does not hand back has been closed exactly once. */
  lemma GetPageReleasesOnFailure(script: AttemptScript, slot: Option<nat>)
    ensures var run := GetPageWith(script, slot, true);
      (run.pageOpened && run.result.Threw? ==> run.closeCalls == 1) &&
      (run.result.Returned? ==> run.pageOpened && run.closeCalls == 0)
  {
  }

  /** What one attempt did, as seen from outside. */
  datatype AttemptRun = AttemptRun(
    outcome: Completion<TradesPage, BrowserError>,
    browser: Option<nat>,
    launched: bool,
    pageOpened: bool,
    closeCalls: nat,
    navigated: Option<Url>)

  /**
   * The function getAllTrades hands to withRetry, run once with the given
   * browser slot: get a page, then navigate to the built URL, read the rows
   * and shape the result, closing the page in `finally`; an error from
   * `close` replaces the attempt's result or error.
   */
  function RunAttemptWith(script: AttemptScript, slot: Option<nat>, filters: Entries, releaseOnSetupFailure: bool): AttemptRun {
    var p := GetPageWith(script, slot, releaseOnSetupFailure);
    if p.result.Threw? then
      AttemptRun(Threw(p.result.error), p.browser, slot.None?, p.pageOpened, p.closeCalls, None)
    else
      var loaded: Completion<TradesPage, BrowserError> :=
        match script.load
        case Returned(rows) =>
          Returned(TradesPage(GetProperty(filters, "page"), GetProperty(filters, "limit"), ExtractedTrades(rows)))
        case Threw(e) => Threw(e);
      var outcome := if script.close.Threw? then Threw(script.close.error) else loaded;
      AttemptRun(outcome, p.browser, slot.None?, true, 1, Some(Url(BaseUrl, QueryPairs(filters))))
  }

  function ExtractedTrades(rows: seq<Row>): seq<Trade> {
    seq(|rows|, i requires 0 <= i < |rows| => TradeOf(rows[i]))
  }

  /** One attempt, with the page released on every path. */
  function RunAttempt(script: AttemptScript, slot: Option<nat>, filters: Entries): AttemptRun {
    RunAttemptWith(script, slot, filters, true)
  }

  /**
   * Every page an attempt opens is closed exactly once, on success and on
   * every failure; the browser is launched only while the slot is empty,
   * and a failed launch leaves it empty for a later attempt; a successful
   * attempt returns `{page: filters.page, limit: filters.limit, trades}`
   * with one record per row after navigating to the built URL.
   */
  lemma AttemptContract(script: AttemptScript, slot: Option<nat>, filters: Entries)
    ensures var run := RunAttempt(script, slot, filters);
      && run.closeCalls == (if run.pageOpened then 1 else 0)
      && (run.launched <==> slot.None?)
      && run.browser == SlotAfterLaunch(slot, script.launch)
      && (run.outcome.Returned? ==>
            && script.load.Returned?
            && run.navigated == Some(Url(BaseUrl, QueryPairs(filters)))
            && run.outcome.value.page == GetProperty(filters, "page")
            && run.outcome.value.limit == GetProperty(filters, "limit")
            && |run.outcome.value.trades| == |script.load.value|
            && forall i :: 0 <= i < |script.load.value| ==> run.outcome.value.trades[i] == TradeOf(script.load.value[i]))
  {
  }

  // ---------------------------------------------------------------------
  // A sequence of attempts, as getAllTrades runs them
  // ---------------------------------------------------------------------

  /** The browser slot before attempt `k`. */
  function SlotBefore(scripts: nat -> AttemptScript, slot0: Option<nat>, k: nat): Option<nat>
    decreases k
  {
    if k == 0 then slot0 else SlotAfterLaunch(SlotBefore(scripts, slot0, k - 1), scripts(k - 1).launch)
  }

  /** Once a launch has returned, every later attempt uses that same browser. */
  lemma {:induction false} LaunchedBrowserIsKept(scripts: nat -> AttemptScript, slot0: Option<nat>, k: nat, m: nat)
    requires SlotBefore(scripts, slot0, k).None? && scripts(k).launch.Returned?
    requires k < m
    ensures SlotBefore(scripts, slot0, m) == Some(scripts(k).launch.value)
    decreases m
  {
    if m - 1 > k {
      LaunchedBrowserIsKept(scripts, slot0, k, m - 1);
    }
  }

  /** Attempt `k` of a run that starts with slot `slot0`. */
  function RunAt(scripts: nat -> AttemptScript, slot0: Option<nat>, filters: Entries, k: nat): AttemptRun {
    RunAttempt(scripts(k), SlotBefore(scripts, slot0, k), filters)
  }

  /** How the successive calls of the attempt function complete. */
  function AttemptOutcomes(scripts: nat -> AttemptScript, slot0: Option<nat>, filters: Entries): nat -> Completion<TradesPage, BrowserError> {
    (k: nat) => RunAt(scripts, slot0, filters, k).outcome
  }

  /** The retry run getAllTrades makes, with the slot it leaves and how many pages its attempts opened. */
  datatype TradesRun = TradesRun(run: RetryRun<TradesPage, BrowserError>, browser: Option<nat>, pagesOpened: nat)

  /**
   * The retry loop from turn `i` of `n` on, with the slot `slot` and the
   * last error so far: the loop of getAllTrades, one attempt per turn.
   */
  function RetryFrom(scripts: nat -> AttemptScript, filters: Entries, slot: Option<nat>, i: nat, n: nat,
                     lastError: Option<BrowserError>): TradesRun
    decreases n - i
  {
    if n <= i then TradesRun(RetryRun(Threw(lastError), i, i), slot, 0)
    else
      var r := RunAttempt(scripts(i), slot, filters);
      var newPages := if r.pageOpened then 1 else 0;
      if r.outcome.Returned? then TradesRun(RetryRun(Returned(r.outcome.value), i + 1, i), r.browser, newPages)
      else
        var rest := RetryFrom(scripts, filters, r.browser, i + 1, n, Some(r.outcome.error));
        rest.(pagesOpened := rest.pagesOpened + newPages)
  }

  lemma {:induction false} RetryFromFollowsSpec(scripts: nat -> AttemptScript, filters: Entries, slot0: Option<nat>,
                                                maxRetries: int, i: nat, lastError: Option<BrowserError>)
    requires i <= Attempts(maxRetries)
    requires forall j :: 0 <= j < i ==> AttemptOutcomes(scripts, slot0, filters)(j).Threw?
    requires lastError == if i == 0 then None else Some(AttemptOutcomes(scripts, slot0, filters)(i - 1).error)
    ensures var t := RetryFrom(scripts, filters, SlotBefore(scripts, slot0, i), i, Attempts(maxRetries), lastError);
      t.run == RetrySpec(AttemptOutcomes(scripts, slot0, filters), maxRetries) &&
      t.browser == SlotBefore(scripts, slot0, t.run.calls)
    decreases Attempts(maxRetries) - i
  {
    var fn := AttemptOutcomes(scripts, slot0, filters);
    var n := Attempts(maxRetries);
    if i == n {
      RetryExhausted(fn, maxRetries, i, lastError);
    } else {
      var slot := SlotBefore(scripts, slot0, i);
      var r := RunAttempt(scripts(i), slot, filters);
      AttemptContract(scripts(i), slot, filters);
      assert fn(i) == r.outcome;
      assert SlotBefore(scripts, slot0, i + 1) == r.browser;
      var t := RetryFrom(scripts, filters, slot, i, n, lastError);
      if r.outcome.Returned? {
        RetryReturnsFirstSuccess(fn, maxRetries, i);
        assert t.run.calls == i + 1 && t.browser == r.browser;
      } else {
        FailuresExtend(fn, i);
        RetryFromFollowsSpec(scripts, filters, slot0, maxRetries, i + 1, Some(r.outcome.error));
        assert t.browser == RetryFrom(scripts, filters, r.browser, i + 1, n, Some(r.outcome.error)).browser;
      }
    }
  }

  /**
   * The run getAllTrades makes is the specified retry run over its attempts,
   * and it leaves the slot as the attempts it made left it.
   */
  lemma RetryFromIsRetrySpec(scripts: nat -> AttemptScript, filters: Entries, slot0: Option<nat>, maxRetries: int)
    ensures var t := RetryFrom(scripts, filters, slot0, 0, Attempts(maxRetries), None);
      t.run == RetrySpec(AttemptOutcomes(scripts, slot0, filters), maxRetries) &&
      t.browser == SlotBefore(scripts, slot0, t.run.calls)
  {
    RetryFromFollowsSpec(scripts, filters, slot0, maxRetries, 0, None);
  }

  /** A browser page; only how often `close` was called is tracked. */
  class Page {
    var closeCalls: nat

    constructor ()
      ensures closeCalls == 0
    {
      closeCalls := 0;
    }

    method Close()
      modifies this
      ensures closeCalls == old(closeCalls) + 1
    {
      closeCalls := closeCalls + 1;
    }
  }

  /** The service module's state: the shared `browser` slot (line 8). */
  class Scraper {
    var browser: Option<nat>

    constructor ()
      ensures browser == None
    {
      browser := None;
    }

    /**
     * `initBrowser` (lines 13-30): the launch is only used while the slot is
     * empty, and the slot is only filled by a launch that returns; a set slot
     * is returned as it is.
     */
    method InitBrowser(launch: Completion<nat, BrowserError>) returns (r: Completion<nat, BrowserError>)
      modifies this
      ensures browser == SlotAfterLaunch(old(browser), launch)
      ensures r == if old(browser).Some? then Returned(old(browser).value) else launch
      ensures r.Returned? ==> browser == Some(r.value)
    {
      if browser.None? {
        if launch.Threw? {
          return launch;
        }
        browser := Some(launch.value);
      }
      return Returned(browser.value);
    }

    /** `getPage` (lines 35-54), closing a page whose setup throws before rethrowing. */
    method GetPage(script: AttemptScript) returns (r: Completion<Page, BrowserError>, ghost newPage: Option<Page>)
      modifies this
      ensures var p := GetPageWith(script, old(browser), true);
        && browser == p.browser
        && (r.Returned? <==> p.result.Returned?)
        && (r.Threw? ==> r.error == p.result.error)
        && (newPage.Some? <==> p.pageOpened)
        && (newPage.Some? ==> fresh(newPage.value) && newPage.value.closeCalls == p.closeCalls)
        && (r.Returned? ==> newPage == Some(r.value))
    {
      newPage := None;
      var b := InitBrowser(script.launch);
      if b.Threw? {
        return Threw(b.error), newPage;
      }
      if script.newPage.Threw? {
        return Threw(script.newPage.error), newPage;
      }
      var page := new Page();
      newPage := Some(page);
      if script.setup.Threw? {
        page.Close();
        if script.close.Threw? {
          return Threw(script.close.error), newPage;
        }
        return Threw(script.setup.error), newPage;
      }
      return Returned(page), newPage;
    }

    /**
     * One call of the function that getAllTrades passes to withRetry;
     * `navigated` is the URL the page was sent to, if it got that far.
     */
    method Attempt(script: AttemptScript, filters: FilterObject)
        returns (outcome: Completion<TradesPage, BrowserError>, ghost page: Option<Page>, ghost navigated: Option<Url>)
      modifies this
      ensures var run := RunAttempt(script, old(browser), filters.entries);
        && outcome == run.outcome
        && navigated == run.navigated
        && browser == run.browser
        && (page.Some? <==> run.pageOpened)
        && (page.Some? ==> fresh(page.value) && page.value.closeCalls == run.closeCalls)
    {
      navigated := None;
      var got;
      got, page := GetPage(script);
      if got.Threw? {
        return Threw(got.error), page, navigated;
      }
      var p := got.value;
      // try
      var url := BuildUrl(BaseUrl, filters.entries);
      navigated := Some(url);
      match script.load {
        case Returned(rows) =>
          var trades := ExtractTradeData(rows);
          assert trades == ExtractedTrades(rows);
          outcome := Returned(TradesPage(GetProperty(filters.entries, "page"), GetProperty(filters.entries, "limit"), trades));
        case Threw(e) =>
          outcome := Threw(e);
      }
      // finally
      p.Close();
      if script.close.Threw? {
        outcome := Threw(script.close.error);
      }
    }

    /**
     * The `withRetry` loop of getAllTrades: attempt `k` meets the browser
     * as `scripts(k)`; every page an attempt opened has been closed once.
     */
    method RetryAttempts(filters: FilterObject, maxRetries: int, scripts: nat -> AttemptScript)
        returns (run: RetryRun<TradesPage, BrowserError>, ghost pages: seq<Page>)
      modifies this
      ensures var total := RetryFrom(scripts, filters.entries, old(browser), 0, Attempts(maxRetries), None);
        run == total.run && browser == total.browser && |pages| == total.pagesOpened
      ensures forall p :: p in pages ==> fresh(p) && p.closeCalls == 1
    {
      ghost var n := Attempts(maxRetries);
      ghost var total := RetryFrom(scripts, filters.entries, browser, 0, n, None);
      var lastError: Option<BrowserError> := None;
      var waits := 0;
      var i := 0;
      pages := [];
      while i < maxRetries
        invariant 0 <= i <= n
        invariant waits == i
        invariant var t := RetryFrom(scripts, filters.entries, browser, i, n, lastError);
          t.run == total.run && t.browser == total.browser && |pages| + t.pagesOpened == total.pagesOpened
        invariant forall p :: p in pages ==> fresh(p) && p.closeCalls == 1
      {
        var outcome, page, _ := Attempt(scripts(i), filters);
        if page.Some? {
          pages := pages + [page.value];
        }
        if outcome.Returned? {
          return RetryRun(Returned(outcome.value), i + 1, waits), pages;
        }
        lastError := Some(outcome.error);
        waits := waits + 1;
        i := i + 1;
      }
      run := RetryRun(Threw(lastError), i, waits);
    }

    /**
     * `getAllTrades(filters)` (lines 114-134): the specified retry run over
     * its attempts, with the default bound read from the environment.
     */
    method GetAllTrades(filters: FilterObject, env: map<string, string>, scripts: nat -> AttemptScript)
        returns (run: RetryRun<TradesPage, BrowserError>, ghost pages: seq<Page>)
      modifies this
      ensures run == RetrySpec(AttemptOutcomes(scripts, old(browser), filters.entries), DefaultMaxRetries(env))
      ensures browser == SlotBefore(scripts, old(browser), run.calls)
      ensures |pages| == RetryFrom(scripts, filters.entries, old(browser), 0, Attempts(DefaultMaxRetries(env)), None).pagesOpened
      ensures forall p :: p in pages ==> fresh(p) && p.closeCalls == 1
    {
      run, pages := RetryAttempts(filters, DefaultMaxRetries(env), scripts);
      RetryFromIsRetrySpec(scripts, filters.entries, old(browser), DefaultMaxRetries(env));
    }

    /** `getTradesBySize` (lines 139-142): sets `filters.size`, then delegates. */
    method GetTradesBySize(tradeSize: JsValue, filters: FilterObject, env: map<string, string>, scripts: nat -> AttemptScript)
        returns (run: RetryRun<TradesPage, BrowserError>, ghost pages: seq<Page>)
      modifies this, filters
      ensures filters.entries == SetProperty(old(filters.entries), "size", tradeSize)
      ensures run == RetrySpec(AttemptOutcomes(scripts, old(browser), filters.entries), DefaultMaxRetries(env))
      ensures browser == SlotBefore(scripts, old(browser), run.calls)
      ensures |pages| == RetryFrom(scripts, filters.entries, old(browser), 0, Attempts(DefaultMaxRetries(env)), None).pagesOpened
      ensures forall p :: p in pages ==> fresh(p) && p.closeCalls == 1
    {
      filters.Set("size", tradeSize);
      run, pages := GetAllTrades(filters, env, scripts);
    }

    /** `getTradesByPolitician` (lines 147-150): sets `filters.politician`, then delegates. */
    method GetTradesByPolitician(politicianId: JsValue, filters: FilterObject, env: map<string, string>, scripts: nat -> AttemptScript)
        returns (run: RetryRun<TradesPage, BrowserError>, ghost pages: seq<Page>)
      modifies this, filters
      ensures filters.entries == SetProperty(old(filters.entries), "politician", politicianId)
      ensures run == RetrySpec(AttemptOutcomes(scripts, old(browser), filters.entries), DefaultMaxRetries(env))
      ensures browser == SlotBefore(scripts, old(browser), run.calls)
      ensures |pages| == RetryFrom(scripts, filters.entries, old(browser), 0, Attempts(DefaultMaxRetries(env)), None).pagesOpened
      ensures forall p :: p in pages ==> fresh(p) && p.closeCalls == 1
    {
      filters.Set("politician", politicianId);
      run, pages := GetAllTrades(filters, env, scripts);
    }

    /** `getTradesByTicker` (lines 155-158): sets `filters.ticker`, then delegates. */
    method GetTradesByTicker(ticker: JsValue, filters: FilterObject, env: map<string, string>, scripts: nat -> AttemptScript)
        returns (run: RetryRun<TradesPage, BrowserError>, ghost pages: seq<Page>)
      modifies this, filters
      ensures filters.entries == SetProperty(old(filters.entries), "ticker", ticker)
      ensures run == RetrySpec(AttemptOutcomes(scripts, old(browser), filters.entries), DefaultMaxRetries(env))
      ensures browser == SlotBefore(scripts, old(browser), run.calls)
      ensures |pages| == RetryFrom(scripts, filters.entries, old(browser), 0, Attempts(DefaultMaxRetries(env)), None).pagesOpened
      ensures forall p :: p in pages ==> fresh(p) && p.closeCalls == 1
    {
      filters.Set("ticker", ticker);
      run, pages := GetAllTrades(filters, env, scripts);
    }
  }
}
