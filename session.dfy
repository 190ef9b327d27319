/**
 * The per-session state of the page: the portfolio table and the
 * watchlist, with the operations the portfolio and watchlist tabs apply to
 * them. The quote provider is an input: a map from a symbol to what a
 * lookup of that symbol returns; a symbol missing from the map is a lookup
 * that raises.
 */
module Session {
  import opened Wrappers
  import opened Text
  import opened AssetClass

  /** One row of the portfolio table: Actif, Type, Quantité, Prix Achat, Valeur Actuelle. */
  datatype Holding = Holding(asset: string, kind: string, quantity: real,
                             purchasePrice: real, currentPrice: real)

  /** What a quote lookup returns: the info fields and the closing prices of the period. */
  datatype Listing = Listing(info: map<string, string>, closes: seq<real>)

  type Market = map<string, Listing>

  datatype AddError = LookupFailed | NoData

  /** The result of submitting the add form: nothing (empty input), a new row, or an error message. */
  datatype AddOutcome = Ignored | Added(symbol: string) | Failed(error: AddError)

  /** The last close of a lookup that returned data. */
  function LastClose(market: Market, symbol: string): Option<real>
  {
    if symbol in market && market[symbol].closes != []
    then Some(market[symbol].closes[|market[symbol].closes| - 1])
    else None
  }

  /**
   * The symbol a search string is stored under: no lower-case ASCII letter
   * and no whitespace at either end.
   */
  function Symbol(query: string): (r: string)
    ensures |r| == |Strip(query)|
    ensures forall k :: 0 <= k < |r| ==> !IsLowerAscii(r[k])
    ensures r == [] || (!IsSpace(r[0]) && !IsSpace(r[|r| - 1]))
  {
    var t := Strip(query);
    assert forall c :: IsSpace(UpperChar(c)) <==> IsSpace(c);
    Upper(t)
  }

  /**
   * The row the add form builds: the symbol is the stripped, upper-cased
   * input, the purchase price is the current price, which is the last close
   * of the lookup, and the type comes from the quote's info. A failed
   * lookup and an empty history are errors.
   */
  function NewHolding(query: string, quantity: real, market: Market): (r: Result<Holding, AddError>)
    ensures r.Failure? <==> LastClose(market, Symbol(query)).None?
    ensures r.Failure? ==> r.error == (if Symbol(query) in market then NoData else LookupFailed)
    ensures r.Success? ==>
              && r.value.asset == Symbol(query)
              && r.value.quantity == quantity
              && r.value.purchasePrice == r.value.currentPrice
              && Some(r.value.currentPrice) == LastClose(market, Symbol(query))
              && r.value.kind == ClassifyInfo(market[Symbol(query)].info)
  {
    var symbol := Symbol(query);
    if symbol !in market then Failure(LookupFailed)
    else
      var listing := market[symbol];
      if listing.closes == [] then Failure(NoData)
      else
        var price := listing.closes[|listing.closes| - 1];
        Success(Holding(symbol, ClassifyInfo(listing.info), quantity, price, price))
  }

  /** One row after a refresh: only the current value may change, and only if the lookup returned data. */
  function RefreshHolding(h: Holding, market: Market): (r: Holding)
    ensures r.asset == h.asset && r.kind == h.kind && r.quantity == h.quantity
    ensures r.purchasePrice == h.purchasePrice
    ensures r.currentPrice == match LastClose(market, h.asset)
                              case Some(p) => p
                              case None => h.currentPrice
  {
    match LastClose(market, h.asset)
    case Some(p) => h.(currentPrice := p)
    case None => h
  }

  /** The whole table after a refresh, row by row. */
  function Refreshed(rows: seq<Holding>, market: Market): seq<Holding>
  {
    seq(|rows|, i requires 0 <= i < |rows| => RefreshHolding(rows[i], market))
  }

  /** Refreshing twice against the same quotes is refreshing once. */
  lemma RefreshIdempotent(rows: seq<Holding>, market: Market)
    ensures Refreshed(Refreshed(rows, market), market) == Refreshed(rows, market)
  {
    var once := Refreshed(rows, market);
    forall i | 0 <= i < |rows|
      ensures RefreshHolding(once[i], market) == once[i]
    {
    }
  }

  /** The derived column Valeur Totale. */
  function TotalValue(h: Holding): real
  {
    h.quantity * h.currentPrice
  }

  /** The derived column Profit/Perte. */
  function ProfitLoss(h: Holding): real
  {
    (h.currentPrice - h.purchasePrice) * h.quantity
  }

  /** Profit/Perte is the total value less what the holding cost. */
  lemma ProfitLossIsGain(h: Holding)
    ensures ProfitLoss(h) == TotalValue(h) - h.quantity * h.purchasePrice
  {
    assert (h.currentPrice - h.purchasePrice) * h.quantity
        == h.quantity * h.currentPrice - h.quantity * h.purchasePrice;
  }

  /** A row whose purchase price is its current price has no profit or loss. */
  lemma AtCostHasNoProfit(h: Holding)
    requires h.purchasePrice == h.currentPrice
    ensures ProfitLoss(h) == 0.0
    ensures TotalValue(h) == h.quantity * h.purchasePrice
  {
  }

  /** A row just added is held at cost: its Profit/Perte is zero. */
  lemma NewHoldingAtCost(query: string, quantity: real, market: Market)
    requires NewHolding(query, quantity, market).Success?
    ensures ProfitLoss(NewHolding(query, quantity, market).value) == 0.0
  {
    AtCostHasNoProfit(NewHolding(query, quantity, market).value);
  }

  /**
   * A refresh moves a row's Profit/Perte exactly by the change in its
   * value, and leaves both derived columns alone when the lookup had no data.
   */
  lemma RefreshDerivedColumns(h: Holding, market: Market)
    ensures var r := RefreshHolding(h, market);
      && ProfitLoss(r) - ProfitLoss(h) == TotalValue(r) - TotalValue(h)
      && (LastClose(market, h.asset).None? ==> TotalValue(r) == TotalValue(h) && ProfitLoss(r) == ProfitLoss(h))
  {
    var r := RefreshHolding(h, market);
    ProfitLossIsGain(h);
    ProfitLossIsGain(r);
  }

  /** Every stored symbol has no lower-case ASCII letter and every type is one of the three classes. */
  ghost predicate WellFormedRows(rows: seq<Holding>)
  {
    forall i :: 0 <= i < |rows| ==>
      && (forall k :: 0 <= k < |rows[i].asset| ==> !IsLowerAscii(rows[i].asset[k]))
      && rows[i].kind in {"FNB", "Obligations", "Actions"}
  }

  ghost predicate WellFormedWatchlist(symbols: seq<string>)
  {
    forall i :: 0 <= i < |symbols| ==>
      forall k :: 0 <= k < |symbols[i]| ==> !IsLowerAscii(symbols[i][k])
  }

  /** `st.session_state`: the portfolio table and the watchlist of one session. */
  class SessionState {
    var portfolio: seq<Holding>
    var watchlist: seq<string>

    ghost predicate Valid()
      reads this
    {
      WellFormedRows(portfolio) && WellFormedWatchlist(watchlist)
    }

    /** A new session starts with an empty table and an empty watchlist. */
    constructor ()
      ensures Valid()
      ensures portfolio == [] && watchlist == []
    {
      portfolio := [];
      watchlist := [];
    }

    /**
     * The add form: an empty search string does nothing; otherwise exactly
     * one row is appended when the lookup returns data, and the table is
     * left as it was on an error.
     */
    method AddHolding(query: string, quantity: real, market: Market) returns (outcome: AddOutcome)
      requires Valid()
      modifies this`portfolio
      ensures Valid()
      ensures query == "" ==> outcome == Ignored
      ensures query != "" ==> match NewHolding(query, quantity, market)
                                case Success(h) => outcome == Added(h.asset)
                                case Failure(e) => outcome == Failed(e)
      ensures portfolio == if outcome.Added? then old(portfolio) + [NewHolding(query, quantity, market).value]
                           else old(portfolio)
    {
      if query == "" {
        return Ignored;
      }
      var built := NewHolding(query, quantity, market);
      match built
      case Success(h) =>
        portfolio := portfolio + [h];
        outcome := Added(h.asset);
      case Failure(e) =>
        outcome := Failed(e);
    }

    /**
     * The refresh button: each row in turn takes the last close of its own
     * lookup as its current value when that lookup returned data.
     */
    method RefreshPrices(market: Market)
      requires Valid()
      modifies this`portfolio
      ensures Valid()
      ensures portfolio == Refreshed(old(portfolio), market)
    {
      var i := 0;
      while i < |portfolio|
        invariant 0 <= i <= |portfolio| == |old(portfolio)|
        invariant forall k :: 0 <= k < i ==> portfolio[k] == RefreshHolding(old(portfolio)[k], market)
        invariant forall k :: i <= k < |portfolio| ==> portfolio[k] == old(portfolio)[k]
        invariant Valid()
      {
        var row := portfolio[i];
        var lookup := LastClose(market, row.asset);
        if lookup.Some? {
          portfolio := portfolio[i := row.(currentPrice := lookup.value)];
        }
        i := i + 1;
      }
    }

    /** The watchlist form: a non-empty symbol is appended upper-cased (but not stripped), duplicates included. */
    method AddToWatchlist(symbol: string) returns (added: bool)
      requires Valid()
      modifies this`watchlist
      ensures Valid()
      ensures added <==> symbol != ""
      ensures watchlist == if added then old(watchlist) + [Upper(symbol)] else old(watchlist)
    {
      added := symbol != "";
      if added {
        watchlist := watchlist + [Upper(symbol)];
      }
    }
  }
}
