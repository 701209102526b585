/**
 * The state of the `App` component (FrontEnd/FinanceFolio/src/App.jsx):
 * the ledger, the price cache and the per-ticker loading flags, and the
 * handlers that update them.
 */
module Frontend {
  import opened Wrappers
  import opened Text
  import opened Ledger
  import Gateway

  /** How one price request settles, as `fetchPrice` sees it. */
  datatype Outcome =
    | Fetched(key: string, price: real)  // an ok response; `key` is what the client reads as the body's ticker
    | FetchFailed                        // a non-ok status or a network error: the `catch` branch

  class App {
    var transactions: seq<Transaction>
    var currentPrices: map<string, real>
    var loadingPrices: map<string, bool>

    /**
     * Every entry has an id, so a row's delete button never passes an
     * undefined id (see Ledger.RemoveClicked for what that delete removes).
     */
    ghost predicate Valid()
      reads this
    {
      AllIdentified(transactions)
    }

    /**
     * The first render: the stored list, each entry without an id given a
     * generated one, or the empty list when nothing is stored; no prices.
     */
    constructor Load(saved: Option<seq<Transaction>>, generated: seq<string>)
      requires saved.Some? ==> |generated| == |saved.value|
      requires forall g :: g in generated ==> g != []
      ensures Valid()
      ensures transactions == if saved.Some? then Backfill(saved.value, generated) else []
      ensures currentPrices == map[] && loadingPrices == map[]
    {
      transactions := if saved.Some? then Backfill(saved.value, generated) else [];
      currentPrices := map[];
      loadingPrices := map[];
    }

    /** `loadingPrices[ticker]` is truthy. */
    predicate IsLoading(ticker: string): (b: bool)
      reads this
      ensures b ==> ticker in loadingPrices
    {
      ticker in loadingPrices && loadingPrices[ticker]
    }

    /** The rows of the history table: the ledger, latest date first, same-day entries in ledger order. */
    function History(): (h: seq<Transaction>)
      reads this
      ensures multiset(h) == multiset(transactions)
      ensures NewestFirst(h)
      ensures forall date :: OnDate(h, date) == OnDate(transactions, date)
    {
      SortIsNewestFirst(transactions);
      forall date ensures OnDate(SortNewestFirst(transactions), date) == OnDate(transactions, date) {
        SortIsStable(transactions, date);
      }
      SortNewestFirst(transactions)
    }

    /** `addTransaction`: appends the entry under a fresh id. */
    method AddTransaction(draft: Draft, id: string)
      requires Valid()
      requires id != [] && id !in Ids(transactions)
      modifies this
      ensures Valid()
      ensures transactions == old(transactions) + [draft.WithId(id)]
      ensures Ids(transactions) == old(Ids(transactions)) + {id}
      ensures old(UniqueIds(transactions)) ==> UniqueIds(transactions)
      ensures currentPrices == old(currentPrices) && loadingPrices == old(loadingPrices)
    {
      ghost var before := transactions;
      transactions := transactions + [draft.WithId(id)];
      assert Ids(transactions) == Ids(before) + {id} by {
        assert forall t :: t in transactions <==> t in before || t == draft.WithId(id);
      }
      if UniqueIds(before) { AppendFresh(before, draft.WithId(id)); }
    }

    /** `handleSubmit`: an accepted form becomes an entry at the end; a rejected one changes nothing. */
    method SubmitForm(form: Form, parse: string -> Option<real>, id: string) returns (accepted: bool)
      requires Valid()
      requires id != [] && id !in Ids(transactions)
      modifies this
      ensures Valid()
      ensures accepted <==> Submit(form, parse).Some?
      ensures transactions == if accepted then old(transactions) + [Submit(form, parse).value.WithId(id)]
                              else old(transactions)
      ensures currentPrices == old(currentPrices) && loadingPrices == old(loadingPrices)
    {
      var draft := Submit(form, parse);
      accepted := draft.Some?;
      if accepted {
        AddTransaction(draft.value, id);
      }
    }

    /** `deleteTransaction`: once confirmed, keeps exactly the entries with another id. */
    method DeleteTransaction(id: string, confirmed: bool)
      requires Valid()
      modifies this
      ensures Valid()
      ensures transactions == if confirmed then RemoveId(old(transactions), id) else old(transactions)
      ensures currentPrices == old(currentPrices) && loadingPrices == old(loadingPrices)
    {
      if confirmed {
        transactions := RemoveId(transactions, id);
        assert forall k :: 0 <= k < |transactions| ==> transactions[k] in transactions;
      }
    }

    /** `handleResetData`: once confirmed, empties the ledger, the prices and the loading flags. */
    method ResetData(confirmed: bool)
      requires Valid()
      modifies this
      ensures Valid()
      ensures confirmed ==> transactions == [] && currentPrices == map[] && loadingPrices == map[]
      ensures !confirmed ==> && transactions == old(transactions)
                             && currentPrices == old(currentPrices)
                             && loadingPrices == old(loadingPrices)
    {
      if confirmed {
        transactions := [];
        currentPrices := map[];
        loadingPrices := map[];
      }
    }

    /**
     * The synchronous start of `fetchPrice`: an empty ticker, or one whose
     * request is still loading, is turned away; otherwise the ticker is
     * marked as loading and a request goes out.
     */
    method BeginFetch(ticker: string) returns (started: bool)
      modifies this
      ensures started <==> ticker != [] && !old(IsLoading(ticker))
      ensures loadingPrices == if started then old(loadingPrices)[ticker := true] else old(loadingPrices)
      ensures ticker != [] ==> IsLoading(ticker)
      ensures currentPrices == old(currentPrices) && transactions == old(transactions)
    {
      started := ticker != [] && !IsLoading(ticker);
      if started {
        loadingPrices := loadingPrices[ticker := true];
      }
    }

    /**
     * The end of `fetchPrice`: a fetched price is written under the key the
     * client reads from the response body; a failure evicts the requested
     * ticker's price; either way the ticker is no longer loading.
     */
    method CompleteFetch(ticker: string, outcome: Outcome)
      modifies this
      ensures outcome.Fetched? ==> currentPrices == old(currentPrices)[outcome.key := outcome.price]
      ensures outcome.FetchFailed? ==> currentPrices == old(currentPrices) - {ticker}
      ensures loadingPrices == old(loadingPrices)[ticker := false]
      ensures !IsLoading(ticker)
      ensures transactions == old(transactions)
    {
      match outcome {
        case Fetched(key, price) =>
          currentPrices := currentPrices[key := price];
        case FetchFailed =>
          currentPrices := currentPrices - {ticker};
      }
      loadingPrices := loadingPrices[ticker := false];
    }

    /**
     * `fetchPrice` as written, run to its end against the gateway's
     * single-symbol route: a price is written under the key "undefined",
     * because the body is read as `data.ticker`.
     */
    method FetchPriceAsWritten(ticker: string, provider: Gateway.Provider)
      modifies this
      ensures ticker == [] || old(IsLoading(ticker)) ==>
                currentPrices == old(currentPrices) && loadingPrices == old(loadingPrices)
      ensures ticker != [] && !old(IsLoading(ticker)) ==>
                && loadingPrices == old(loadingPrices)[ticker := false]
                && currentPrices == match Gateway.GetPrice(ticker, provider)
                                    case PriceOk(_, price) => old(currentPrices)[UndefinedKey := price]
                                    case _ => old(currentPrices) - {ticker}
      ensures transactions == old(transactions)
    {
      var started := BeginFetch(ticker);
      if started {
        var reply := Gateway.GetPrice(ticker, provider);
        CompleteFetch(ticker, OutcomeAsWritten(reply));
      }
    }

    /**
     * `fetchPrice` corrected, run to its end against the gateway's
     * single-symbol route: the price is read under the symbol the server
     * echoes.
     */
    method FetchPrice(ticker: string, provider: Gateway.Provider)
      modifies this
      ensures ticker == [] || old(IsLoading(ticker)) ==>
                currentPrices == old(currentPrices) && loadingPrices == old(loadingPrices)
      ensures ticker != [] && !old(IsLoading(ticker)) ==>
                && loadingPrices == old(loadingPrices)[ticker := false]
                && currentPrices == match Gateway.GetPrice(ticker, provider)
                                    case PriceOk(symbol, price) => old(currentPrices)[symbol := price]
                                    case _ => old(currentPrices) - {ticker}
      ensures transactions == old(transactions)
    {
      var started := BeginFetch(ticker);
      if started {
        var reply := Gateway.GetPrice(ticker, provider);
        CompleteFetch(ticker, OutcomeOf(reply));
      }
    }
  }

  // ---------------------------------------------------------------------------
  // Reading the single-symbol reply
  // ---------------------------------------------------------------------------

  /** The property name JavaScript uses for a computed key that is `undefined`. */
  const UndefinedKey: string := "undefined"

  /**
   * The reply as the client code reads it: a non-ok status throws, and an
   * ok body `{symbol, price}` is keyed by `data.ticker`, a field the
   * server never sends, so the key is always "undefined".
   */
  function OutcomeAsWritten(reply: Gateway.PriceReply): (o: Outcome)
    ensures o.Fetched? <==> Gateway.Status(reply) == 200
    ensures o.Fetched? ==> o.key == UndefinedKey && o.price == reply.price
  {
    match reply
    case PriceOk(_, price) => Fetched(UndefinedKey, price)
    case _ => FetchFailed
  }

  /** The reply read under the symbol the server echoes. */
  function OutcomeOf(reply: Gateway.PriceReply): (o: Outcome)
    ensures o.Fetched? <==> Gateway.Status(reply) == 200
    ensures o.Fetched? ==> o.key == reply.symbol && o.price == reply.price
  {
    match reply
    case PriceOk(symbol, price) => Fetched(symbol, price)
    case _ => FetchFailed
  }

  /** As written, a fetched price never lands under the symbol that was asked for. */
  lemma AsWrittenKeyNeverMatches(ticker: string, provider: Gateway.Provider)
    ensures var reply := Gateway.GetPrice(ticker, provider);
            OutcomeAsWritten(reply).Fetched? ==> OutcomeAsWritten(reply).key != reply.symbol
  {
    var reply := Gateway.GetPrice(ticker, provider);
    if reply.PriceOk? {
      assert IsUpper(reply.symbol);
      assert IsLower(UndefinedKey[0]);
      if |reply.symbol| > 0 { assert !IsLower(reply.symbol[0]); }
    }
  }

  /**
   * A refresh of a ledger ticker, as written: even when the provider has a
   * price, the ticker's row finds none.
   */
  method RefreshAsWritten(ticker: string, provider: Gateway.Provider) returns (priced: bool)
    requires IsUpper(ticker)
    ensures !priced
  {
    var app := new App.Load(None, []);
    AsWrittenKeyNeverMatches(ticker, provider);
    UpperIsUpper(ticker);
    app.FetchPriceAsWritten(ticker, provider);
    priced := ticker in app.currentPrices;
  }

  /**
   * A refresh of a ledger ticker, keyed by the echoed symbol: the ticker's
   * row has a price exactly when the provider has one for it.
   */
  method Refresh(ticker: string, provider: Gateway.Provider) returns (priced: bool)
    requires IsUpper(ticker)
    ensures priced <==> ticker != [] && Gateway.HasPrice(provider(ticker))
  {
    var app := new App.Load(None, []);
    UpperIsUpper(ticker);
    app.FetchPrice(ticker, provider);
    priced := ticker in app.currentPrices;
  }

  /**
   * Two refreshes of one ticker while the first is outstanding send one
   * request (none for an empty ticker).
   */
  method BurstOfRefreshes(ticker: string) returns (requests: nat)
    ensures requests == if ticker == [] then 0 else 1
  {
    var app := new App.Load(None, []);
    var first := app.BeginFetch(ticker);
    var second := app.BeginFetch(ticker);
    requests := (if first then 1 else 0) + (if second then 1 else 0);
  }

  /**
   * A reset clears the loading flags but cannot stop a request already
   * out. Once an entry for the ticker is recorded again, so that its row
   * and refresh button reappear, a refresh sends a second request for the
   * same ticker, and the first one's completion writes into the emptied
   * cache.
   */
  method ResetDuringFetch(draft: Draft, id: string, price: real) returns (requests: nat, cached: map<string, real>)
    requires draft.ticker != [] && id != []
    ensures requests == 2
    ensures cached == map[draft.ticker := price]
  {
    var ticker := draft.ticker;
    var app := new App.Load(None, []);
    var first := app.BeginFetch(ticker);
    app.ResetData(true);
    app.AddTransaction(draft, id);
    var second := app.BeginFetch(ticker);
    requests := (if first then 1 else 0) + (if second then 1 else 0);
    app.CompleteFetch(ticker, Fetched(ticker, price));
    cached := app.currentPrices;
  }
}
