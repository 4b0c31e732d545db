/** The stock-trading API wrappers: what each returns or raises for each way
    its request can settle, and the default timeframe of the performance
    query. */
module StocksClient {
  import opened Values
  import opened Transport

  const TradeFailed := "Failed to execute trade"
  const NoResponseReceived := "No response received from server"
  const DefaultTimeframe := "1M"

  /** What `searchStocks` returns when the search fails. */
  const EmptySearch := JObject([("results", JArray([])), ("count", JNumber(0))])

  datatype Endpoint =
    | ExecuteOptionTrade
    | GetOptionsChain
    | GetQuote
    | ExecuteTrade
    | GetPortfolio
    | GetPerformanceMetrics
    | GetWatchlist
    | AddToWatchlist
    | RemoveFromWatchlist
    | GetMarketOverview
    | GetHistoricalPrices
    | SearchStocks

  /** The wrappers that swallow failures and return a default. */
  predicate Swallows(e: Endpoint) {
    e.GetWatchlist? || e.SearchStocks?
  }

  /** The wrappers that log and rethrow whatever they caught. */
  predicate Rethrows(e: Endpoint) {
    !e.ExecuteOptionTrade? && !Swallows(e)
  }

  function PolicyOf(e: Endpoint): Policy<Json> {
    match e
    case ExecuteOptionTrade => Translate(TradeFailed, NoResponseReceived, true)
    case GetWatchlist => Substitute(JArray([]))
    case SearchStocks => Substitute(EmptySearch)
    case _ => Propagate
  }

  /** What the caller of wrapper `e` observes when its request settles with
      `o`. */
  function Call(e: Endpoint, o: Outcome<Json>): (r: Completion<Json>)
    ensures o.Ok? ==> r == Returned(o.data)
    // executeOptionTrade distinguishes the three kinds of failure
    ensures e.ExecuteOptionTrade? && o.Failed? && o.failure.HttpError? ==>
              r == Raised(if Truthy(o.failure.detail) then o.failure.detail.value else TradeFailed)
    ensures e.ExecuteOptionTrade? && o == Failed(NoResponse) ==> r == Raised(NoResponseReceived)
    ensures e.ExecuteOptionTrade? && o.Failed? && o.failure.SetupError? ==> r == Propagated(o.failure)
    // the watchlist and search swallow every failure
    ensures e.GetWatchlist? && o.Failed? ==> r == Returned(JArray([]))
    ensures e.SearchStocks? && o.Failed? ==> r == Returned(EmptySearch)
    ensures Rethrows(e) && o.Failed? ==> r == Propagated(o.failure)
  {
    Handle(PolicyOf(e), o)
  }

  /** Exactly the watchlist fetch and the search never let an error reach
      their caller. */
  lemma NeverThrowsIffSwallows(e: Endpoint)
    ensures (forall f: Failure :: Call(e, Failed(f)).Returned?) <==> Swallows(e)
  {
    if !Swallows(e) {
      assert !Call(e, Failed(NoResponse)).Returned?;
    }
  }

  /** Only a setup failure escapes executeOptionTrade as the original error;
      every other failure is replaced by a message. */
  lemma OptionTradeRethrowsOnlySetup(f: Failure)
    ensures Call(ExecuteOptionTrade, Failed(f)).Propagated? <==> f.SetupError?
    ensures Call(ExecuteOptionTrade, Failed(f)).Raised? <==> !f.SetupError?
  {
  }

  /** A failed watchlist fetch or search looks exactly like an empty answer
      from the server. */
  lemma SwallowedFailureLooksEmpty(f: Failure)
    ensures Call(GetWatchlist, Failed(f)) == Call(GetWatchlist, Ok(JArray([])))
    ensures Call(SearchStocks, Failed(f)) == Call(SearchStocks, Ok(EmptySearch))
  {
  }

  /** The query of `getPerformanceMetrics(userId, timeframe)`. */
  function PerformanceQuery(timeframe: Option<string>): (q: seq<(string, string)>)
    ensures |q| == 1 && q[0].0 == "timeframe"
    ensures timeframe.None? ==> q[0].1 == DefaultTimeframe
    ensures timeframe.Some? ==> q[0].1 == timeframe.value
  {
    [("timeframe", if timeframe.Some? then timeframe.value else DefaultTimeframe)]
  }

  /** Omitting the timeframe is the same as asking for one month; the
      default replaces only an omitted argument, so an empty string is sent
      as given. */
  lemma PerformanceDefault()
    ensures PerformanceQuery(None) == PerformanceQuery(Some("1M"))
    ensures PerformanceQuery(Some("")) != PerformanceQuery(None)
  {
  }
}
