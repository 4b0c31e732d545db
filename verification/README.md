# Financial dashboard client: session slice, API wrappers and portfolio card

A Dafny model of the sequential logic inside a React financial-dashboard
client. The client talks to a REST backend through a shared HTTP client.
Four pieces of it are modelled:

- **The `account` session slice** (`AccountReducer`). It holds the signed-in
  user, a loading flag, an error and a `sessionChecked` flag. It changes only
  through three reducers: `setCurrentUser`, `setError` and `setLoading`.
- **The account API wrappers** (`AccountClient`). Each wrapper issues one
  request, then returns, raises or rethrows depending on how the request
  settled. `getUsers` also builds a paginated query: `skip`, `limit` and an
  optional `search`.
- **The stock API wrappers** (`StocksClient`). Most of them rethrow.
  `executeOptionTrade` sorts failures into three kinds. `getWatchlist` and
  `searchStocks` swallow failures and return an empty default.
  `getPerformanceMetrics` defaults its timeframe to `"1M"`.
- **The portfolio overview card** (`PortfolioOverview`). This covers the
  card's local state `{summary, history, loading, error}`, one completed
  `fetchData` poll, the order in which the render branches are tested, the
  `+`/`-` gain/loss display, and each position card's arrow and percentage.

The HTTP client is reduced to the outcome a request settled with
(`Transport.Outcome`), which is one of:

- `Ok(data)`;
- `HttpError(detail)`: the server answered outside 2xx;
- `NoResponse`: the request went out but no answer came back;
- `SetupError(message)`: the request could not be set up.

The caller of a wrapper sees one of three things (`Transport.Completion`):

- `Returned(value)`;
- `Raised(message)`: a new error is raised;
- `Propagated(original)`: the caught error is rethrown unchanged.

Every wrapper applies one of three policies (`Transport.Policy`) to the
outcome: propagate, substitute a default, or translate into messages.
Response bodies are opaque JSON values (`Values.Json`). The query text of
`skip` is the decimal text `Number.prototype.toString` gives for an integer
of magnitude below 2^53. It is modelled with a parser that reads it back
(`Values.Decimal`, `Values.ParseDecimal`).

Two behaviours of the polling card follow from the code itself:

- A successful poll stores a fresh summary and history
  (src/Dashboard/PortfolioOverview.tsx:89-90), but no path ever resets
  `error`. Once one poll has failed, the `if (error)` branch at line 138 is
  taken on every later render, so the fresh data is never shown again. This
  is logged under Findings.
- Every poll sets `loading` to true before it awaits (line 84), so the
  loading skeleton shows during every poll, not only at mount
  (`PortfolioOverview.InFlightShowsSkeleton`).

## Model

| member | source | states |
|---|---|---|
| `AccountReducer.Reduce` | src/Account/reducer.ts:14-26 | setCurrentUser yields user = payload, loading false, error null, sessionChecked true, whatever the prior state; setError sets error and clears loading but keeps user and sessionChecked; setLoading changes only loading; no reducer clears sessionChecked |
| `AccountReducer.ReduceIdempotent` | src/Account/reducer.ts:14-26 | dispatching the same action twice equals dispatching it once |
| `AccountReducer.RunSessionChecked` | src/Account/reducer.ts:14-26 | after any sequence of actions, sessionChecked holds iff it held before or some action was setCurrentUser (the flag is monotone) |
| `AccountReducer.RunKeepsUser` | src/Account/reducer.ts:20-26 | a run without setCurrentUser keeps the starting user |
| `AccountReducer.RunCurrentUser` | src/Account/reducer.ts:14-19 | after a run, the user is the payload of the last setCurrentUser |
| `AccountReducer.RunKeepsError` | src/Account/reducer.ts:24-26 | a run made only of setLoading keeps the starting error |
| `AccountReducer.RunError` | src/Account/reducer.ts:14-23 | after a run, the error is what the last error-writing action left: setError's payload, or null after setCurrentUser |
| `AccountReducer.RunLoading` | src/Account/reducer.ts:14-26 | every action writes loading, so after a non-empty run it is true iff the last action was setLoading(true) |
| `AccountReducer.FromInitialState` | src/Account/reducer.ts:3-8 | starting from the initial state, sessionChecked is true iff a user was set, and a user is present only if a setCurrentUser carried one |
| `Values.DecimalRoundTrip` | src/Account/client.ts:73-75 | the decimal text sent for the skip value reads back as the same integer, negative ones included |
| `Transport.Handle` | src/Stocks/client.ts:95-114 | success returns the data unchanged; a rethrown failure is exactly the one that occurred; propagate rethrows every failure; substitute never raises and returns its default on failure; translate raises the detail or the fallback for HTTP errors and the no-response message when nothing came back, and for a setup failure either rethrows it (when told to) or raises the no-response message |
| `Transport.NeverThrowsIffSubstitute` | src/Stocks/client.ts:179-186 | a policy lets no failure reach the caller iff it substitutes a default |
| `AccountClient.Call` | src/Account/client.ts:3-98 | every wrapper returns response data unchanged on success; signin raises the server detail when truthy, else "Login failed", and raises "Network error occurred" for every failure without a response, setup failures included; checkSession never raises and yields null on failure; the other six wrappers rethrow the original error |
| `AccountClient.NeverThrowsIffCheckSession` | src/Account/client.ts:25-32 | checkSession is the only account wrapper whose caller never sees an error |
| `AccountClient.CheckSessionHidesFailure` | src/Account/client.ts:25-32 | a failed session check is indistinguishable from a server answering null |
| `AccountClient.SigninMessageNonEmpty` | src/Account/client.ts:8-11 | every error signin raises has a non-empty message |
| `AccountClient.SigninScenarios` | src/Account/client.ts:3-13 | a 401 with detail "Invalid credentials" raises exactly that; an empty detail raises "Login failed"; no response raises "Network error occurred" |
| `AccountClient.UsersQuery` | src/Account/client.ts:71-78 | the query is skip, limit, then search; skip reads back as (page - 1) * 20 with page 1 when omitted; limit is "20"; search is appended iff it is truthy; a page at or below zero gives a negative skip |
| `AccountClient.UsersQueryDeterminesRequest` | src/Account/client.ts:71-78 | equal queries come from the same page and the same truthy search term |
| `AccountClient.UsersQueryPages` | src/Account/client.ts:71-73 | the default page asks from 0, page 3 from 40; page 0 asks from -20 (no bound check), and an empty search adds no parameter |
| `StocksClient.Call` | src/Stocks/client.ts:61-242 | every wrapper returns data unchanged on success; executeOptionTrade raises the detail or "Failed to execute trade" on an HTTP error, raises "No response received from server" when nothing came back, and rethrows setup failures; getWatchlist returns [] and searchStocks returns {results: [], count: 0} on any failure; the other nine rethrow the original error |
| `StocksClient.NeverThrowsIffSwallows` | src/Stocks/client.ts:178-242 | exactly getWatchlist and searchStocks never let an error reach their caller |
| `StocksClient.OptionTradeRethrowsOnlySetup` | src/Stocks/client.ts:95-114 | executeOptionTrade rethrows the original error iff request setup failed, and raises a new message otherwise |
| `StocksClient.SwallowedFailureLooksEmpty` | src/Stocks/client.ts:179-242 | a failed watchlist fetch or search looks the same to the caller as an empty answer |
| `StocksClient.PerformanceQuery` | src/Stocks/client.ts:168-170 | the only parameter is timeframe: "1M" when omitted, otherwise the given value |
| `StocksClient.PerformanceDefault` | src/Stocks/client.ts:168 | omitting the timeframe equals asking for "1M"; an empty timeframe is sent as given, not defaulted |
| `PortfolioOverview.Join` | src/Dashboard/PortfolioOverview.tsx:85-88 | the two fetches give a pair iff both succeed, so one failure fails the cycle |
| `PortfolioOverview.FetchData` | src/Dashboard/PortfolioOverview.tsx:80-97 | with no user id nothing changes; otherwise loading ends false; when both requests succeed, summary and history become what they resolved with (null included) and the error is left as it was; when either request fails, even if the other succeeded, both are kept and the error becomes the load-failure message |
| `PortfolioOverview.Render` | src/Dashboard/PortfolioOverview.tsx:125-150 | loading shows the skeleton; otherwise a truthy error shows the error card with that message; otherwise a missing summary shows nothing; otherwise the overview of the summary |
| `PortfolioOverview.InFlightShowsSkeleton` | src/Dashboard/PortfolioOverview.tsx:84 | while a poll is in flight the skeleton is shown, on every poll |
| `PortfolioOverview.NullSummaryRendersNothing` | src/Dashboard/PortfolioOverview.tsx:146-148 | a first poll whose summary request resolves with null renders nothing |
| `PortfolioOverview.PollWithoutUser` | src/Dashboard/PortfolioOverview.tsx:39-42 | without a user id, no number of polls changes the state, so the initial skeleton stays up |
| `PortfolioOverview.PollError` | src/Dashboard/PortfolioOverview.tsx:85-95 | after polls for a user, the error is the load-failure message if some poll failed, and otherwise the starting error; when the polls did not start from that message, it is present iff some poll failed |
| `PortfolioOverview.ErrorSticksAfterRecovery` | src/Dashboard/PortfolioOverview.tsx:89-93 | a success, a poll whose summary request alone fails, then a success: from mount the error card is still rendered |
| `PortfolioOverview.FetchDataCorrected` | src/Dashboard/PortfolioOverview.tsx:80-97 | with a success that clears the error, one poll renders the error card on failure, and on success the overview of the summary it resolved with, or nothing when that is null |
| `PortfolioOverview.CorrectedShowsLatestPoll` | src/Dashboard/PortfolioOverview.tsx:80-97 | with the corrected step, the view after any polls reflects the latest one: the error card after a failure, the latest summary (or nothing for null) after a success |
| `PortfolioOverview.CorrectedRecovers` | src/Dashboard/PortfolioOverview.tsx:89-95 | with the corrected step, success, failure, success shows the error card after the failure and the overview after the recovery |
| `PortfolioOverview.GainLoss` | src/Dashboard/PortfolioOverview.tsx:182-183 | the prefix is '+' iff the gain is at least zero, the magnitude is non-negative, and prefix plus magnitude read back as the amount |
| `PortfolioOverview.CardOf` | src/Dashboard/PortfolioOverview.tsx:17-36 | a position card shows the up arrow iff change is at least zero, and shows the magnitude of percentChange with the position's symbol, quantity and price |
| `PortfolioOverview.CardHidesPercentSign` | src/Dashboard/PortfolioOverview.tsx:29-31 | the card looks the same if percentChange is negated: only change picks the arrow |
| `PortfolioOverview.PanelOf` | src/Dashboard/PortfolioOverview.tsx:207-216 | a missing or empty positions list shows the placeholder; otherwise there is one card per position, in order |

## Findings

| source | as written | input that shows it | evidently intended | confidence | as-written member | corrected member |
|---|---|---|---|---|---|---|
| src/Dashboard/PortfolioOverview.tsx:89-93 | a successful poll stores summary and history but never resets `error` | for a signed-in user, polls that succeed, fail, then succeed still render the error card | a successful poll clears the error, so the card shows the summary it has just stored instead of hiding it behind the error branch at line 138 for good | medium, not executed | `PortfolioOverview.ErrorSticksAfterRecovery` | `PortfolioOverview.CorrectedRecovers` |

## Left out

- src/Home/index.tsx: static landing page and animation variants, with no state to model.
- The HTTP client, its configuration, URL paths and request bodies: the client is a foreign library, and its transport, cookies and URL encoding are not visible. `URLSearchParams` percent-encoding is not modelled either.
- `uploadProfileImage`'s `FormData` construction: multipart I/O. Its error policy (rethrow) is modelled.
- Logging through `console.log` and `console.error`: it has no effect on behaviour.
- The 30-second `setInterval`, `clearInterval` on unmount, and the concurrency of the two fetches: the model joins the two outcomes and takes completed polls one at a time. Overlapping polls and stale responses are not modelled.
- `getPortfolioSummary` and `getPortfolioHistory`: the dashboard's own client is not part of this model. Only the outcome of each call is used.
- Number formatting (`toFixed`, `toLocaleString`), dates, chart data, chart options and colours: these are presentation only.
- Floating-point behaviour: amounts are `real`, so NaN and negative zero are not modelled.
- Redux Toolkit and Immer mechanics: the reducers are modelled as pure record updates.
- `AccountClient.Call`: an HTTP error's `detail` is modelled as an optional string. A non-string detail, and a missing response body (which makes the source throw a `TypeError` from the catch block), are not modelled.
- `AccountClient.UsersQuery`: `page` is an integer and skip is exact integer arithmetic. The source computes `(page - 1) * 20` in double precision. That rounds once |skip| reaches 2^53, and `toString` switches to exponent notation from 10^21: page 10^20 sends "2e+21" where the model sends "1999999999999999999980". A fractional or non-numeric page, which JavaScript would also accept, is not modelled either.
- `StocksClient.Call`: an HTTP error's `detail` is modelled as an optional string, for `executeOptionTrade` as for signin. A non-string detail, which the source turns into a message such as "[object Object]", and a missing response body, which makes the catch block throw a `TypeError`, are not modelled.
- `StocksClient.PerformanceQuery`: a `null` timeframe is treated as a present value. How the HTTP client serialises `null` is not modelled.
