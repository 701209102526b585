/**
 * The quote gateway of BackEnd/server.js: the two routes that ask the
 * market-data provider (`yahooFinance.quote`) for prices.
 */
module Gateway {
  import opened Wrappers
  import opened Text

  /** The fields of a provider quote that the server reads; each may be absent. */
  datatype Quote = Quote(
    regularMarketPrice: Option<real>,
    regularMarketChangePercent: Option<real>,
    shortName: Option<string>,
    longName: Option<string>)

  /** How a call `yahooFinance.quote(symbol)` settles: with a quote, with nothing, or by throwing. */
  datatype Lookup = Found(quote: Quote) | NoQuote | Threw

  /** The provider, as a function from symbol to the way its call settles. */
  type Provider = string -> Lookup

  /** `quote && quote.regularMarketPrice`: there is a quote and its price is present and not zero. */
  predicate HasPrice(l: Lookup): (b: bool)
    ensures b ==> l.Found? && l.quote.regularMarketPrice.Some?
  {
    l.Found? && l.quote.regularMarketPrice.Some? && l.quote.regularMarketPrice.value != 0.0
  }

  // ---------------------------------------------------------------------------
  // GET /api/price/:symbol
  // ---------------------------------------------------------------------------

  /** The replies of the single-symbol route. */
  datatype PriceReply =
    | PriceOk(symbol: string, price: real)   // 200 {symbol, price}
    | NoData(symbol: string)                 // 404 {error: "No hay datos para <symbol>"}
    | ProviderFailed                         // 500 {error}

  function Status(r: PriceReply): int {
    match r
    case PriceOk(_, _) => 200
    case NoData(_) => 404
    case ProviderFailed => 500
  }

  /**
   * The single-symbol route: asks the provider for the upper-cased symbol;
   * 200 with that symbol and its price when the quote has a usable price,
   * 404 when the quote or its price is missing or zero, 500 when the call throws.
   */
  function GetPrice(param: string, provider: Provider): (r: PriceReply)
    ensures r.PriceOk? || r.NoData? ==> r.symbol == Upper(param) && IsUpper(r.symbol)
    ensures Status(r) == 200 <==> HasPrice(provider(Upper(param)))
    ensures Status(r) == 404 <==> !HasPrice(provider(Upper(param))) && !provider(Upper(param)).Threw?
    ensures Status(r) == 500 <==> provider(Upper(param)).Threw?
    ensures r.PriceOk? ==> r.price != 0.0 && Some(r.price) == provider(r.symbol).quote.regularMarketPrice
  {
    var symbol := Upper(param);
    UpperIsUpper(param);
    match provider(symbol)
    case Threw => ProviderFailed
    case NoQuote => NoData(symbol)
    case Found(q) =>
      if q.regularMarketPrice.None? || q.regularMarketPrice.value == 0.0 then NoData(symbol)
      else PriceOk(symbol, q.regularMarketPrice.value)
  }

  /** The route does not depend on the case of the path parameter. */
  lemma GetPriceIgnoresCase(param: string, provider: Provider)
    ensures GetPrice(param, provider) == GetPrice(Upper(param), provider)
  {
    UpperIdempotent(param);
  }

  // ---------------------------------------------------------------------------
  // GET /api/prices?symbols=A,B,C
  // ---------------------------------------------------------------------------

  /** One entry of the batch result: `{price, change, name}`. */
  datatype Entry = Entry(price: real, change: Option<real>, name: string)

  /** The replies of the batch route (its outer 500 cannot happen, see README). */
  datatype BatchReply =
    | SymbolsMissing                         // 400 {error}
    | Prices(results: map<string, Entry>)    // 200 {SYMBOL: {price, change, name}, ...}

  predicate Truthy(s: Option<string>) {
    s.Some? && s.value != []
  }

  /** `quote.shortName || quote.longName || symbol`. */
  function DisplayName(q: Quote, symbol: string): (name: string)
    ensures Truthy(q.shortName) ==> name == q.shortName.value
    ensures !Truthy(q.shortName) && Truthy(q.longName) ==> name == q.longName.value
    ensures !Truthy(q.shortName) && !Truthy(q.longName) ==> name == symbol
    ensures name == [] ==> symbol == []
  {
    if Truthy(q.shortName) then q.shortName.value
    else if Truthy(q.longName) then q.longName.value
    else symbol
  }

  /** The entry written for a symbol whose quote has a price. */
  function EntryFor(symbol: string, q: Quote): (e: Entry)
    requires q.regularMarketPrice.Some?
    ensures e.price == q.regularMarketPrice.value && e.change == q.regularMarketChangePercent
    ensures e.name == symbol || Some(e.name) == q.shortName || Some(e.name) == q.longName
    ensures symbol != [] ==> e.name != []
  {
    Entry(q.regularMarketPrice.value, q.regularMarketChangePercent, DisplayName(q, symbol))
  }

  lemma NoCommaInTrim(piece: string)
    requires ',' !in piece
    ensures ',' !in Trim(piece)
  {
    TrimIsInfix(piece);
    var i := TrimStartIndex(piece);
    var t := Trim(piece);
    forall k | 0 <= k < |t| ensures t[k] != ',' {
      assert t[k] == piece[i + k];
    }
  }

  lemma NoCommaInUpper(t: string)
    requires ',' !in t
    ensures ',' !in Upper(t)
  {
    var n := Upper(t);
    forall k | 0 <= k < |n| ensures n[k] != ',' {
      assert n[k] == UpperChar(t[k]);
      assert t[k] in t;
    }
  }

  /** A comma never survives trimming and upper-casing a piece that had none, and the result is normalised. */
  lemma NormalisedPiece(piece: string)
    requires ',' !in piece
    ensures var n := Upper(Trim(piece)); ',' !in n && IsUpper(n) && Trim(n) == n
  {
    var t := Trim(piece);
    NoCommaInTrim(piece);
    NoCommaInUpper(t);
    UpperIsUpper(t);
    TrimUpperCommute(t);
    TrimIdempotent(piece);
  }

  /** `symbols.split(',').map(s => s.trim().toUpperCase())`. */
  function ParseSymbols(symbols: string): (list: seq<string>)
    ensures |list| == |Split(symbols, ',')|
    ensures |list| == Occurrences(symbols, ',') + 1
    ensures forall k :: 0 <= k < |list| ==> list[k] == Upper(Trim(Split(symbols, ',')[k]))
    ensures forall k :: 0 <= k < |list| ==> ',' !in list[k] && IsUpper(list[k]) && Trim(list[k]) == list[k]
  {
    var pieces := Split(symbols, ',');
    SplitPieces(symbols, ',');
    forall k | 0 <= k < |pieces| ensures var n := Upper(Trim(pieces[k])); ',' !in n && IsUpper(n) && Trim(n) == n {
      NormalisedPiece(pieces[k]);
    }
    seq(|pieces|, k requires 0 <= k < |pieces| => Upper(Trim(pieces[k])))
  }

  /** A comma-join of normalised symbols (comma-free, upper-case, trimmed) parses back to exactly those symbols. */
  lemma ParseSymbolsOfNormalised(list: seq<string>)
    requires |list| >= 1
    requires forall k :: 0 <= k < |list| ==> ',' !in list[k] && IsUpper(list[k]) && Trim(list[k]) == list[k]
    ensures ParseSymbols(Join(list, ',')) == list
  {
    SplitJoin(list, ',');
    var r := ParseSymbols(Join(list, ','));
    forall k | 0 <= k < |list| ensures r[k] == list[k] {
      UpperIsUpper(list[k]);
    }
  }

  /**
   * The per-symbol step of the batch route, run over `list` from left to
   * right: a symbol whose lookup has a usable price gets its entry.
   */
  function Collect(list: seq<string>, provider: Provider): (r: map<string, Entry>)
    ensures forall symbol :: symbol in r ==> symbol in list && HasPrice(provider(symbol))
    decreases |list|
  {
    if list == [] then map[]
    else
      var before := Collect(list[..|list| - 1], provider);
      var symbol := list[|list| - 1];
      var l := provider(symbol);
      if HasPrice(l) then before[symbol := EntryFor(symbol, l.quote)] else before
  }

  /**
   * A symbol is in the result exactly when it was asked for and its lookup
   * has a usable price, and its entry is built from its own quote.
   */
  lemma {:induction false} CollectAt(list: seq<string>, provider: Provider, symbol: string)
    ensures symbol in Collect(list, provider) <==> symbol in list && HasPrice(provider(symbol))
    ensures symbol in Collect(list, provider) ==>
              Collect(list, provider)[symbol] == EntryFor(symbol, provider(symbol).quote)
    decreases |list|
  {
    if list != [] {
      var init := list[..|list| - 1];
      CollectAt(init, provider, symbol);
      assert list == init + [list[|list| - 1]];
    }
  }

  /** Every key of the result is one of the symbols asked for. */
  lemma ResultKeys(list: seq<string>, provider: Provider)
    ensures Collect(list, provider).Keys == set s | s in list && HasPrice(provider(s))
  {
    forall s ensures s in Collect(list, provider) <==> s in list && HasPrice(provider(s)) {
      CollectAt(list, provider, s);
    }
  }

  /**
   * The calls run in parallel and may settle in any order: the result depends
   * only on which symbols are asked for, not on their order or repetitions.
   */
  lemma CollectOrderFree(a: seq<string>, b: seq<string>, provider: Provider)
    requires forall s :: s in a <==> s in b
    ensures Collect(a, provider) == Collect(b, provider)
  {
    forall s ensures s in Collect(a, provider) <==> s in Collect(b, provider) {
      CollectAt(a, provider, s);
      CollectAt(b, provider, s);
    }
    forall s | s in Collect(a, provider) ensures Collect(a, provider)[s] == Collect(b, provider)[s] {
      CollectAt(a, provider, s);
      CollectAt(b, provider, s);
    }
  }

  /**
   * A failure for one symbol is isolated: two providers that differ only on
   * `symbol` give the same entries for every other symbol.
   */
  lemma FailureIsolated(list: seq<string>, p: Provider, q: Provider, symbol: string)
    requires forall s :: s != symbol ==> p(s) == q(s)
    ensures Collect(list, p) - {symbol} == Collect(list, q) - {symbol}
  {
    var a := Collect(list, p) - {symbol};
    var b := Collect(list, q) - {symbol};
    forall s ensures s in a <==> s in b {
      CollectAt(list, p, s);
      CollectAt(list, q, s);
    }
    forall s | s in a ensures a[s] == b[s] {
      CollectAt(list, p, s);
      CollectAt(list, q, s);
    }
  }

  /**
   * The `Promise.all` fan-out, run one symbol after another: calls the
   * provider once per symbol, in order, and keeps the entries with a price.
   */
  method FanOut(list: seq<string>, provider: Provider) returns (results: map<string, Entry>, queried: seq<string>)
    ensures queried == list
    ensures results == Collect(list, provider)
  {
    results := map[];
    queried := [];
    var i := 0;
    while i < |list|
      invariant 0 <= i <= |list|
      invariant queried == list[..i]
      invariant results == Collect(queried, provider)
    {
      var symbol := list[i];
      var l := provider(symbol);
      assert (queried + [symbol])[..|queried|] == queried;
      if HasPrice(l) {
        results := results[symbol := EntryFor(symbol, l.quote)];
      }
      assert list[..i + 1] == queried + [symbol];
      queried := queried + [symbol];
      i := i + 1;
    }
    assert list[..i] == list;
  }

  /**
   * The batch route: without a non-empty `symbols` parameter it answers 400
   * before calling the provider; otherwise it calls the provider once per
   * parsed symbol and answers with the entries collected.
   */
  method GetPrices(symbols: Option<string>, provider: Provider) returns (reply: BatchReply, queried: seq<string>)
    ensures reply.SymbolsMissing? <==> symbols.None? || symbols.value == []
    ensures reply.SymbolsMissing? ==> queried == []
    ensures reply.Prices? ==> && queried == ParseSymbols(symbols.value)
                              && reply.results == Collect(queried, provider)
  {
    if symbols.None? || symbols.value == [] {
      return SymbolsMissing, [];
    }
    var list := ParseSymbols(symbols.value);
    var results;
    results, queried := FanOut(list, provider);
    reply := Prices(results);
  }

  /**
   * Symbols `AAPL` and `ZZZZINVALID` with data for AAPL only: the result
   * holds AAPL alone, and no error is raised.
   */
  lemma UnknownSymbolOmitted(provider: Provider)
    requires HasPrice(provider("AAPL")) && !HasPrice(provider("ZZZZINVALID"))
    ensures Collect(["AAPL", "ZZZZINVALID"], provider).Keys == {"AAPL"}
  {
    var list := ["AAPL", "ZZZZINVALID"];
    var m := Collect(list, provider);
    forall s ensures s in m <==> s == "AAPL" {
      CollectAt(list, provider, s);
    }
  }
}
