# FinanceFolio: a Dafny model of the ledger, the price cache and the quote gateway

FinanceFolio lets a user record purchases (`compra`) and sales (`venta`) of
financial instruments and look up their current prices. This project models
the two pieces of the repository that hold logic:

- the `App` component of the front end (`FrontEnd/FinanceFolio/src/App.jsx`):
  - the form check of `handleSubmit`;
  - the transaction list and its handlers `addTransaction`,
    `deleteTransaction` and `handleResetData`;
  - the id backfill when stored data is loaded;
  - the newest-first history view;
  - the `fetchPrice` state machine over `currentPrices` and `loadingPrices`;
- the quote gateway (`BackEnd/server.js`): the routes `/api/price/:symbol`
  and `/api/prices`, around the market-data provider `yahooFinance.quote`.

Files:

- `wrappers.dfy`: `Option`.
- `text.dfy`: the JavaScript string operations the code uses (`trim`,
  `toUpperCase`, `split`), `Join`, the inverse of `split(',')` used to state
  its round trip, and the order on date strings.
- `ledger.dfy`: the pure ledger logic, as functions and lemmas.
- `gateway.dfy`: the two server routes.
- `frontend.dfy`: class `App`, whose fields are the component's three state
  variables and whose methods are its handlers.

The provider is a function parameter `Provider = string -> Lookup`. A call
settles with a quote (`Found`), with nothing (`NoQuote`) or by throwing
(`Threw`). `parseFloat` is a parameter `parse: string -> Option<real>`, where
`None` stands for `NaN`. `generateId` becomes an id argument that is
non-empty and not yet in the ledger. `window.confirm` becomes a boolean
argument. A network request from the client is split in two:

- `BeginFetch`, the synchronous start;
- `CompleteFetch`, which receives how the request settled, as an `Outcome`.

On success, the `Outcome` carries the key that the client reads from the
response body, not the requested ticker.

## Behaviour worth noting

- These files compute no holdings, cost basis or profit and loss, so none
  is modelled.
- The "one request in flight per ticker" guard does not survive
  `handleResetData`. A reset clears the loading flags, but the request
  already out still completes. `Frontend.ResetDuringFetch` shows the second
  request and the write into the emptied cache.
- The batch route rejects an empty `symbols` parameter as well as a missing
  one.

## Model

| member | source | states |
|---|---|---|
| `Text.Trim` | BackEnd/server.js:35 | `trim`: the result neither starts nor ends with whitespace (the ECMAScript set), and it is empty exactly when the input is all whitespace |
| `Text.TrimIsInfix` | BackEnd/server.js:35 | the trimmed string is a contiguous piece of the input with only whitespace before and after it |
| `Text.TrimIdempotent` | FrontEnd/FinanceFolio/src/App.jsx:48-51 | trimming a trimmed string changes nothing |
| `Text.Upper` | BackEnd/server.js:13 | `toUpperCase`: same length, each lower-case ASCII letter mapped to its capital and every other character kept; with UpperIsUpper and UpperIdempotent below |
| `Text.UpperIsUpper` | BackEnd/server.js:13 | `toUpperCase` leaves no lower-case letter, and a string is its own upper case exactly when it has none |
| `Text.UpperIdempotent` | BackEnd/server.js:13 | upper-casing twice is upper-casing once |
| `Text.TrimUpperCommute` | FrontEnd/FinanceFolio/src/App.jsx:51 | `toUpperCase().trim()` (client) equals `trim().toUpperCase()` (server) |
| `Text.Split` | BackEnd/server.js:35 | `split(',')` always gives at least one piece; with JoinSplit, SplitPieces and SplitJoin below it is the JavaScript split |
| `Text.JoinSplit` | BackEnd/server.js:35 | joining the pieces of `split(',')` with commas gives back the parameter |
| `Text.SplitPieces` | BackEnd/server.js:35 | no piece of `split(',')` contains a comma, and there is one piece more than commas |
| `Text.SplitJoin` | BackEnd/server.js:35 | splitting a comma-join of comma-free pieces gives back those pieces |
| `Text.LexLeqTotal` | FrontEnd/FinanceFolio/src/App.jsx:96 | any two dates are comparable |
| `Text.LexLeqTransitive` | FrontEnd/FinanceFolio/src/App.jsx:96 | the date order is transitive |
| `Text.LexLeqAntisymmetric` | FrontEnd/FinanceFolio/src/App.jsx:96 | two dates each at or before the other are the same date |
| `Ledger.Submit` | FrontEnd/FinanceFolio/src/App.jsx:44-51 | a form is accepted iff the trimmed ticker is non-empty, quantity and price parse to numbers above zero, and a date is set; the entry then holds the trimmed, upper-cased ticker, the parsed numbers, the kind and the date, and is well formed |
| `Ledger.Backfill` | FrontEnd/FinanceFolio/src/App.jsx:164-166 | loading keeps length, order and every field except a missing id; an existing id is kept; with non-empty generated ids every entry has an id |
| `Ledger.BackfillIdentified` | FrontEnd/FinanceFolio/src/App.jsx:166 | stored data whose entries all have ids is loaded unchanged |
| `Ledger.RemoveId` | FrontEnd/FinanceFolio/src/App.jsx:184 | the filter never grows the list and keeps only entries of the list whose id differs |
| `Ledger.RemoveIdCounts` | FrontEnd/FinanceFolio/src/App.jsx:184 | every entry with another id is kept as often as it occurred; none with the deleted id remains |
| `Ledger.RemoveIdConcat` | FrontEnd/FinanceFolio/src/App.jsx:184 | the filter distributes over concatenation, so the kept entries keep their order |
| `Ledger.RemoveUnknownId` | FrontEnd/FinanceFolio/src/App.jsx:182-185 | deleting leaves the ledger unchanged iff no entry has that id |
| `Ledger.RemoveClicked` | FrontEnd/FinanceFolio/src/App.jsx:144 | with unique ids, deleting a row's id removes exactly that row and keeps the others in order |
| `Ledger.AddThenRemove` | FrontEnd/FinanceFolio/src/App.jsx:177-185 | deleting the entry just added under its fresh id restores the ledger |
| `Ledger.AppendFresh` | FrontEnd/FinanceFolio/src/App.jsx:177-180 | appending under a fresh id keeps ids unique and adds exactly that id |
| `Ledger.SortNewestFirst` | FrontEnd/FinanceFolio/src/App.jsx:96 | the sorted copy is a permutation of the ledger |
| `Ledger.SortIsNewestFirst` | FrontEnd/FinanceFolio/src/App.jsx:96 | the sorted copy has non-increasing dates |
| `Ledger.SortIsStable` | FrontEnd/FinanceFolio/src/App.jsx:96 | entries with the same date keep their ledger order |
| `Gateway.HasPrice` | BackEnd/server.js:17 | `quote && quote.regularMarketPrice` holds only for a returned quote that carries a price; the single route answers 200 exactly on it (see GetPrice) |
| `Gateway.GetPrice` | BackEnd/server.js:12-25 | the provider is asked for the upper-cased symbol, which the reply echoes; 200 with the quote's price iff the quote has a non-zero price, 404 iff the quote or its price is missing or zero and the call did not throw, 500 iff it threw |
| `Gateway.GetPriceIgnoresCase` | BackEnd/server.js:13 | the route answers the same for a symbol and its upper case |
| `Gateway.DisplayName` | BackEnd/server.js:48 | `shortName` when truthy, else `longName` when truthy, else the symbol; never empty for a non-empty symbol |
| `Gateway.EntryFor` | BackEnd/server.js:45-49 | the entry carries the quote's price and change as given, and a name that is the short name, the long name or the symbol, never empty for a non-empty symbol |
| `Gateway.ParseSymbols` | BackEnd/server.js:35 | one symbol per comma-separated piece, in order, each the trimmed and upper-cased piece; none contains a comma, a lower-case letter or surrounding whitespace |
| `Gateway.ParseSymbolsOfNormalised` | BackEnd/server.js:35 | a comma-join of normalised symbols parses back to exactly those symbols |
| `Gateway.Collect` | BackEnd/server.js:38-55 | the batch result assembly: every key is a requested symbol whose lookup has a price; CollectAt, ResultKeys, CollectOrderFree and FailureIsolated below pin down the rest |
| `Gateway.CollectAt` | BackEnd/server.js:41-54 | a symbol is in the batch result iff it was asked for and its lookup has a non-zero price; its entry is built from its own quote |
| `Gateway.ResultKeys` | BackEnd/server.js:44-50 | the result's keys are exactly the requested symbols with a priced lookup |
| `Gateway.CollectOrderFree` | BackEnd/server.js:40-55 | the result depends only on which symbols are requested, not on their order or repetition |
| `Gateway.FailureIsolated` | BackEnd/server.js:42-53 | a symbol whose call fails or has no price does not change any other symbol's entry |
| `Gateway.UnknownSymbolOmitted` | BackEnd/server.js:41-54 | asking for `AAPL` and `ZZZZINVALID` with data for AAPL only gives a result holding AAPL alone |
| `Gateway.FanOut` | BackEnd/server.js:38-55 | the loop calls the provider once per symbol, in order, and builds the result the fold `Collect` describes |
| `Gateway.GetPrices` | BackEnd/server.js:28-57 | 400 with no provider call iff `symbols` is missing or empty; otherwise one call per parsed symbol and the collected entries |
| `Frontend.App.Load` | FrontEnd/FinanceFolio/src/App.jsx:164-171 | the ledger is the backfilled stored list, or empty when nothing is stored; no prices and no loading flags; every entry has an id |
| `Frontend.App.IsLoading` | FrontEnd/FinanceFolio/src/App.jsx:200 | a ticker with no entry in `loadingPrices` is not loading, as an `undefined` lookup is falsy; BeginFetch and BurstOfRefreshes state the guard it drives |
| `Frontend.App.History` | FrontEnd/FinanceFolio/src/App.jsx:96 | the rows are a permutation of the ledger, newest first, same-day entries in ledger order; the ledger is only read |
| `Frontend.App.AddTransaction` | FrontEnd/FinanceFolio/src/App.jsx:177-180 | the ledger grows by the new entry at the end, under the fresh id; earlier entries and both price maps are unchanged; unique ids stay unique |
| `Frontend.App.SubmitForm` | FrontEnd/FinanceFolio/src/App.jsx:44-53 | an accepted form appends its entry; a rejected one leaves all state unchanged |
| `Frontend.App.DeleteTransaction` | FrontEnd/FinanceFolio/src/App.jsx:182-186 | when confirmed the ledger becomes the entries with another id, in order; otherwise nothing changes; prices are untouched |
| `Frontend.App.ResetData` | FrontEnd/FinanceFolio/src/App.jsx:188-196 | when confirmed the ledger, the prices and the loading flags are all emptied; otherwise nothing changes |
| `Frontend.App.BeginFetch` | FrontEnd/FinanceFolio/src/App.jsx:199-203 | a request starts iff the ticker is non-empty and not loading; then only its loading flag is set; prices and ledger are unchanged |
| `Frontend.App.CompleteFetch` | FrontEnd/FinanceFolio/src/App.jsx:217-232 | success sets exactly one price under the key read from the body; failure evicts only the requested ticker's price; the ticker's loading flag ends false, the other flags unchanged |
| `Frontend.App.FetchPriceAsWritten` | FrontEnd/FinanceFolio/src/App.jsx:199-234 | as written: a turned-away request changes nothing; otherwise a 200 stores the price under the key "undefined", a 404 or 500 evicts the ticker, and the flag ends false |
| `Frontend.App.FetchPrice` | FrontEnd/FinanceFolio/src/App.jsx:199-234 | corrected: a turned-away request changes nothing; otherwise the price is stored under the echoed symbol on a 200 and the ticker is evicted on a 404 or 500, and the flag ends false |
| `Frontend.OutcomeAsWritten` | FrontEnd/FinanceFolio/src/App.jsx:207-219 | as written: a non-200 reply is a failure, and a 200 reply is stored under the key "undefined" |
| `Frontend.OutcomeOf` | FrontEnd/FinanceFolio/src/App.jsx:207-219 | corrected: a 200 reply is stored under the symbol the server echoes |
| `Frontend.AsWrittenKeyNeverMatches` | FrontEnd/FinanceFolio/src/App.jsx:219 | as written, the key of a fetched price never equals the symbol the server echoes |
| `Frontend.RefreshAsWritten` | FrontEnd/FinanceFolio/src/App.jsx:199-234 | as written, refreshing a normalised ticker never gives its row a price |
| `Frontend.Refresh` | FrontEnd/FinanceFolio/src/App.jsx:199-234 | corrected, refreshing a normalised ticker gives its row a price iff it is non-empty and the provider has a non-zero price for it |
| `Frontend.BurstOfRefreshes` | FrontEnd/FinanceFolio/src/App.jsx:200-203 | two refreshes of one ticker while the first is outstanding send one request, none for an empty ticker |
| `Frontend.ResetDuringFetch` | FrontEnd/FinanceFolio/src/App.jsx:188-203 | a reset during a request, followed by recording an entry for the ticker again, lets a second request for that ticker start, and the first one's completion writes into the emptied cache |

## Left out

- Storage: `localStorage` reads, writes and removal are not modelled. The
  stored list is a constructor argument, and `JSON.parse` failures are not
  modelled.
- Parsing: `parseFloat` and the `','` to `'.'` replacement are the `parse`
  parameter. IEEE doubles, `Infinity` and rounding are not modelled; numbers
  are reals.
- Ids: `generateId` is an id argument, required non-empty and not yet in the
  ledger. The clock and the random source behind it are not modelled.
- Dates: dates are compared as ISO `yyyy-mm-dd` strings, which is what the
  date input produces. For such strings this order is the order of
  `new Date`. A date that does not parse makes the comparator return `NaN`;
  that case is not modelled.
- Text.Upper: it maps only ASCII `a`-`z`. Non-ASCII case mapping of
  `toUpperCase` (such as `ß` to `SS`) is not modelled.
- Form: the form reset after a submission (App.jsx:52) and the rest of the
  form-field plumbing are UI state.
- Dialogs and logs: `alert` and `console` output are not modelled.
  `window.confirm` is a boolean argument.
- Transport: `fetch`, the URL and port (the client targets 3001 while the
  server listens on 5000), and the error-body handling of App.jsx:208-215
  are not modelled. Any non-ok status or network error is a single failure
  outcome. App.jsx:207 puts the ticker into the request path without
  escaping it, so a ticker holding `/`, `?`, `#` or `%` reaches another
  route or another symbol (`BRK/B` matches no route and gets a 404; `A?B`
  asks for `A`). `Frontend.App.FetchPrice` and
  `Frontend.App.FetchPriceAsWritten` hand the ticker to `Gateway.GetPrice`
  unchanged, so the model does not capture that effect.
- Server plumbing: Express routing, `cors`, `app.listen` and the text of the
  error messages are not modelled.
- Concurrency: `Promise.all` is a sequential loop, and that ordering does not
  matter (`Gateway.CollectOrderFree`). The provider is a function, so two
  calls for the same symbol give the same answer. Interleavings other than
  the begin/complete split, and React's stale closures over
  `loadingPrices`, are not modelled.
- A repeated `symbols` query parameter, which Express turns into an array,
  is not modelled.
- Prices: a `NaN` `regularMarketPrice` (falsy, so a 404) is not modelled.
  Only an absent or zero price is.
- Batch 500: the outer 500 of `/api/prices` (server.js:58-61) cannot happen
  in the model. The inner `catch` swallows every provider error, and nothing
  else in the handler fails.
- Display: `formatCurrency`, `formatNumber` and the table markup are not
  modelled.
- Valuation: holdings, cost basis and profit and loss are not computed
  anywhere in these files.

## Findings

| source | as written | input that shows it | evidently intended | confidence | as-written member | corrected member |
|---|---|---|---|---|---|---|
| FrontEnd/FinanceFolio/src/App.jsx:219 | the fetched price is stored under `data.ticker`, but the server replies `{symbol, price}` (BackEnd/server.js:20), so the key is the string "undefined" and the row lookup `currentPrices[tx.ticker]` (App.jsx:122) finds nothing | a refresh of ticker `AAPL` while the provider has a price for `AAPL` | store the price under `data.symbol`, the upper-cased ticker the server echoes | not executed | `Frontend.RefreshAsWritten` | `Frontend.Refresh` |
