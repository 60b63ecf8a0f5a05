/** The portfolio ledger of the stock-trading simulator: a cash balance, a
    symbol-to-quantity holdings map and an append-only transaction list,
    changed only by buying and selling. Money is counted in whole cents. */
module Trading {

  datatype Option<T> = None | Some(value: T)

  /** Every fresh portfolio starts with 10000.00 in cash. */
  const StartingCash: int := 1_000_000

  /** A listed stock: its symbol and its current price in cents. */
  datatype Stock = Stock(symbol: string, price: int)

  datatype TradeKind = Buy | Sell

  /** One record of the transaction list; the wall-clock date is not modelled. */
  datatype Transaction = Transaction(kind: TradeKind, symbol: string, quantity: int, price: int)

  /** What the program reports after a trade request. */
  datatype Outcome = Traded | InsufficientFunds | NotEnoughShares | StockNotFound

  /** The whole state of a portfolio, as a value. */
  datatype Ledger = Ledger(cash: int, holdings: map<string, int>, transactions: seq<Transaction>)

  const Initial: Ledger := Ledger(StartingCash, map[], [])

  /** The quantity held of a symbol, zero when it has no entry. */
  function Owned(holdings: map<string, int>, symbol: string): int
  {
    if symbol in holdings then holdings[symbol] else 0
  }

  /** A buy goes through exactly when the cash covers the whole cost. */
  predicate CanBuy(l: Ledger, stock: Stock, quantity: int)
  {
    l.cash >= stock.price * quantity
  }

  /** A sell goes through exactly when enough shares are held. */
  predicate CanSell(l: Ledger, stock: Stock, quantity: int)
  {
    Owned(l.holdings, stock.symbol) >= quantity
  }

  /** The ledger after a request to buy `quantity` shares of `stock`. */
  function Bought(l: Ledger, stock: Stock, quantity: int): (r: Ledger)
    ensures CanBuy(l, stock, quantity) ==>
      && r.cash == l.cash - stock.price * quantity
      && r.holdings.Keys == l.holdings.Keys + {stock.symbol}
      && Owned(r.holdings, stock.symbol) == Owned(l.holdings, stock.symbol) + quantity
      && (forall s :: s != stock.symbol ==> Owned(r.holdings, s) == Owned(l.holdings, s))
      && r.transactions == l.transactions + [Transaction(Buy, stock.symbol, quantity, stock.price)]
    ensures !CanBuy(l, stock, quantity) ==> r == l
  {
    if CanBuy(l, stock, quantity) then
      Ledger(l.cash - stock.price * quantity,
             l.holdings[stock.symbol := Owned(l.holdings, stock.symbol) + quantity],
             l.transactions + [Transaction(Buy, stock.symbol, quantity, stock.price)])
    else
      l
  }

  /** The ledger after a request to sell `quantity` shares of `stock`.
      The entry is kept even when it drops to zero. */
  function Sold(l: Ledger, stock: Stock, quantity: int): (r: Ledger)
    ensures CanSell(l, stock, quantity) ==>
      && r.cash == l.cash + stock.price * quantity
      && r.holdings.Keys == l.holdings.Keys + {stock.symbol}
      && Owned(r.holdings, stock.symbol) == Owned(l.holdings, stock.symbol) - quantity
      && (forall s :: s != stock.symbol ==> Owned(r.holdings, s) == Owned(l.holdings, s))
      && r.transactions == l.transactions + [Transaction(Sell, stock.symbol, quantity, stock.price)]
    ensures !CanSell(l, stock, quantity) ==> r == l
  {
    if CanSell(l, stock, quantity) then
      Ledger(l.cash + stock.price * quantity,
             l.holdings[stock.symbol := Owned(l.holdings, stock.symbol) - quantity],
             l.transactions + [Transaction(Sell, stock.symbol, quantity, stock.price)])
    else
      l
  }

  /** The market value of one holding: its quantity times the market price. */
  function Worth(holdings: map<string, int>, market: map<string, Stock>, symbol: string): int
    requires symbol in holdings && symbol in market
  {
    holdings[symbol] * market[symbol].price
  }

  ghost function Pick(symbols: set<string>): string
    requires symbols != {}
  {
    var s :| s in symbols; s
  }

  /** The sum of the worths of the given held symbols. */
  ghost function SumOver(holdings: map<string, int>, market: map<string, Stock>, symbols: set<string>): int
    requires symbols <= holdings.Keys && symbols <= market.Keys
  {
    if symbols == {} then 0
    else
      var s := Pick(symbols);
      Worth(holdings, market, s) + SumOver(holdings, market, symbols - {s})
  }

  /** The market value of all holdings. Defined only when every held symbol
      is listed in the market. */
  ghost function Value(holdings: map<string, int>, market: map<string, Stock>): int
    requires holdings.Keys <= market.Keys
  {
    SumOver(holdings, market, holdings.Keys)
  }

  /** Any symbol can be taken out of the sum first: the sum does not depend
      on the order in which the symbols are visited. */
  lemma {:induction false} SumOverRemove(holdings: map<string, int>, market: map<string, Stock>, symbols: set<string>, s: string)
    requires symbols <= holdings.Keys && symbols <= market.Keys && s in symbols
    ensures SumOver(holdings, market, symbols) == Worth(holdings, market, s) + SumOver(holdings, market, symbols - {s})
  {
    var t := Pick(symbols);
    if t != s {
      calc {
        SumOver(holdings, market, symbols);
        Worth(holdings, market, t) + SumOver(holdings, market, symbols - {t});
        { SumOverRemove(holdings, market, symbols - {t}, s); }
        Worth(holdings, market, t) + Worth(holdings, market, s) + SumOver(holdings, market, symbols - {t} - {s});
        { assert symbols - {t} - {s} == symbols - {s} - {t}; }
        Worth(holdings, market, s) + Worth(holdings, market, t) + SumOver(holdings, market, symbols - {s} - {t});
        { SumOverRemove(holdings, market, symbols - {s}, t); }
        Worth(holdings, market, s) + SumOver(holdings, market, symbols - {s});
      }
    }
  }

  /** The sum over some symbols only looks at the quantities of those symbols. */
  lemma {:induction false} SumOverAgree(h: map<string, int>, h': map<string, int>, market: map<string, Stock>, symbols: set<string>)
    requires symbols <= h.Keys && symbols <= h'.Keys && symbols <= market.Keys
    requires forall s :: s in symbols ==> h[s] == h'[s]
    ensures SumOver(h, market, symbols) == SumOver(h', market, symbols)
  {
    if symbols != {} {
      var s := Pick(symbols);
      SumOverAgree(h, h', market, symbols - {s});
    }
  }

  /** A zero-quantity entry adds nothing to the value. */
  lemma ZeroEntryAddsNothing(holdings: map<string, int>, market: map<string, Stock>, s: string)
    requires holdings.Keys <= market.Keys && s in holdings && holdings[s] == 0
    ensures Value(holdings, market) == Value(holdings - {s}, market)
  {
    SumOverRemove(holdings, market, holdings.Keys, s);
    assert (holdings - {s}).Keys == holdings.Keys - {s};
    SumOverAgree(holdings, holdings - {s}, market, holdings.Keys - {s});
  }

  /** The portfolio kept by the simulator. */
  class Portfolio {
    var holdings: map<string, int>
    var transactions: seq<Transaction>
    var cash: int

    function State(): Ledger
      reads this
    {
      Ledger(cash, holdings, transactions)
    }

    constructor ()
      ensures State() == Initial
    {
      holdings := map[];
      transactions := [];
      cash := StartingCash;
    }

    /** Buys `quantity` shares at the stock's price if the cash covers it;
        otherwise changes nothing. */
    method Buy(stock: Stock, quantity: int) returns (outcome: Outcome)
      modifies this
      ensures State() == Bought(old(State()), stock, quantity)
      ensures outcome == if CanBuy(old(State()), stock, quantity) then Traded else InsufficientFunds
    {
      var cost := stock.price * quantity;
      if cash >= cost {
        cash := cash - cost;
        holdings := holdings[stock.symbol := Owned(holdings, stock.symbol) + quantity];
        transactions := transactions + [Transaction(TradeKind.Buy, stock.symbol, quantity, stock.price)];
        outcome := Traded;
      } else {
        outcome := InsufficientFunds;
      }
    }

    /** Sells `quantity` shares at the stock's price if that many are held;
        otherwise changes nothing. */
    method Sell(stock: Stock, quantity: int) returns (outcome: Outcome)
      modifies this
      ensures State() == Sold(old(State()), stock, quantity)
      ensures outcome == if CanSell(old(State()), stock, quantity) then Traded else NotEnoughShares
    {
      var owned := Owned(holdings, stock.symbol);
      if owned >= quantity {
        cash := cash + stock.price * quantity;
        holdings := holdings[stock.symbol := owned - quantity];
        transactions := transactions + [Transaction(TradeKind.Sell, stock.symbol, quantity, stock.price)];
        outcome := Traded;
      } else {
        outcome := NotEnoughShares;
      }
    }

    /** The total shown by the portfolio view: cash plus the market value of
        every holding. A held symbol missing from the market gives no total. */
    method PortfolioValue(market: map<string, Stock>) returns (total: Option<int>)
      ensures total.None? <==> !(holdings.Keys <= market.Keys)
      ensures total.Some? ==> holdings.Keys <= market.Keys && total.value == cash + Value(holdings, market)
    {
      var sum := cash;
      var pending := holdings.Keys;
      while pending != {}
        invariant pending <= holdings.Keys
        invariant holdings.Keys - pending <= market.Keys
        invariant sum == cash + SumOver(holdings, market, holdings.Keys - pending)
        decreases |pending|
      {
        var symbol :| symbol in pending;
        if symbol !in market {
          return None;
        }
        var qty := holdings[symbol];
        var price := market[symbol].price;
        ghost var visited := holdings.Keys - (pending - {symbol});
        assert visited - {symbol} == holdings.Keys - pending;
        SumOverRemove(holdings, market, visited, symbol);
        sum := sum + qty * price;
        pending := pending - {symbol};
      }
      assert holdings.Keys - pending == holdings.Keys;
      return Some(sum);
    }
  }

  /** The buy request of the menu: a symbol that is not listed is reported
      and nothing changes. */
  method RequestBuy(portfolio: Portfolio, market: map<string, Stock>, symbol: string, quantity: int)
    returns (outcome: Outcome)
    modifies portfolio
    ensures symbol !in market ==> outcome == StockNotFound && portfolio.State() == old(portfolio.State())
    ensures symbol in market ==>
      && portfolio.State() == Bought(old(portfolio.State()), market[symbol], quantity)
      && outcome == if CanBuy(old(portfolio.State()), market[symbol], quantity) then Traded else InsufficientFunds
  {
    if symbol in market {
      outcome := portfolio.Buy(market[symbol], quantity);
    } else {
      outcome := StockNotFound;
    }
  }

  /** The sell request of the menu, guarded the same way. */
  method RequestSell(portfolio: Portfolio, market: map<string, Stock>, symbol: string, quantity: int)
    returns (outcome: Outcome)
    modifies portfolio
    ensures symbol !in market ==> outcome == StockNotFound && portfolio.State() == old(portfolio.State())
    ensures symbol in market ==>
      && portfolio.State() == Sold(old(portfolio.State()), market[symbol], quantity)
      && outcome == if CanSell(old(portfolio.State()), market[symbol], quantity) then Traded else NotEnoughShares
  {
    if symbol in market {
      outcome := portfolio.Sell(market[symbol], quantity);
    } else {
      outcome := StockNotFound;
    }
  }

  // ---------------------------------------------------------------------
  // Sequences of trades

  datatype Order = BuyOrder(stock: Stock, quantity: int) | SellOrder(stock: Stock, quantity: int)

  function Apply(l: Ledger, order: Order): Ledger
  {
    match order
    case BuyOrder(stock, quantity) => Bought(l, stock, quantity)
    case SellOrder(stock, quantity) => Sold(l, stock, quantity)
  }

  predicate Succeeds(l: Ledger, order: Order)
  {
    match order
    case BuyOrder(stock, quantity) => CanBuy(l, stock, quantity)
    case SellOrder(stock, quantity) => CanSell(l, stock, quantity)
  }

  /** The ledger after the orders, one after the other. */
  function Run(l: Ledger, orders: seq<Order>): Ledger
    decreases |orders|
  {
    if orders == [] then l else Run(Apply(l, orders[0]), orders[1..])
  }

  /** How many of the orders go through when run from `l`. */
  function Successes(l: Ledger, orders: seq<Order>): nat
    decreases |orders|
  {
    if orders == [] then 0
    else (if Succeeds(l, orders[0]) then 1 else 0) + Successes(Apply(l, orders[0]), orders[1..])
  }

  /** No negative cash and no negative holding. */
  predicate Solvent(l: Ledger)
  {
    l.cash >= 0 && forall s :: s in l.holdings ==> l.holdings[s] >= 0
  }

  /** An order with a non-negative quantity at a non-negative price. */
  predicate WellFormed(order: Order)
  {
    order.quantity >= 0 && order.stock.price >= 0
  }

  /** One well-formed order keeps the ledger solvent, appends one record when
      it goes through and none when it fails, and never rewrites the
      records already there. */
  lemma ApplyKeepsInvariants(l: Ledger, order: Order)
    requires Solvent(l) && WellFormed(order)
    ensures Solvent(Apply(l, order))
    ensures Succeeds(l, order) ==> |Apply(l, order).transactions| == |l.transactions| + 1
    ensures !Succeeds(l, order) ==> Apply(l, order) == l
    ensures Apply(l, order).transactions[..|l.transactions|] == l.transactions
  {
  }

  /** Every run of well-formed orders keeps the ledger solvent; the
      transaction list grows by exactly the number of orders that went
      through, and its earlier entries are left as they were. */
  lemma {:induction false} RunKeepsInvariants(l: Ledger, orders: seq<Order>)
    requires Solvent(l)
    requires forall i :: 0 <= i < |orders| ==> WellFormed(orders[i])
    ensures Solvent(Run(l, orders))
    ensures |Run(l, orders).transactions| == |l.transactions| + Successes(l, orders)
    ensures Run(l, orders).transactions[..|l.transactions|] == l.transactions
    decreases |orders|
  {
    if orders != [] {
      var next := Apply(l, orders[0]);
      ApplyKeepsInvariants(l, orders[0]);
      RunKeepsInvariants(next, orders[1..]);
      var r := Run(next, orders[1..]);
      assert r.transactions[..|l.transactions|] == r.transactions[..|next.transactions|][..|l.transactions|];
    }
  }

  /** Buying and then selling the same quantity at the same price goes
      through, restores the cash and every quantity (the sold symbol may be
      left with a zero entry) and appends a BUY and a SELL record. */
  lemma BuyThenSellRestores(l: Ledger, stock: Stock, quantity: int)
    requires CanBuy(l, stock, quantity) && Owned(l.holdings, stock.symbol) >= 0
    ensures CanSell(Bought(l, stock, quantity), stock, quantity)
    ensures Sold(Bought(l, stock, quantity), stock, quantity).cash == l.cash
    ensures forall s :: Owned(Sold(Bought(l, stock, quantity), stock, quantity).holdings, s) == Owned(l.holdings, s)
    ensures Sold(Bought(l, stock, quantity), stock, quantity).holdings.Keys == l.holdings.Keys + {stock.symbol}
    ensures Sold(Bought(l, stock, quantity), stock, quantity).transactions
         == l.transactions + [Transaction(Buy, stock.symbol, quantity, stock.price),
                              Transaction(Sell, stock.symbol, quantity, stock.price)]
  {
  }

  /** ... and so also the value of the portfolio at any market prices. */
  lemma BuyThenSellKeepsValue(l: Ledger, stock: Stock, quantity: int, market: map<string, Stock>)
    requires CanBuy(l, stock, quantity) && Owned(l.holdings, stock.symbol) >= 0
    requires l.holdings.Keys <= market.Keys && stock.symbol in market
    ensures Sold(Bought(l, stock, quantity), stock, quantity).holdings.Keys <= market.Keys
    ensures Value(Sold(Bought(l, stock, quantity), stock, quantity).holdings, market) == Value(l.holdings, market)
  {
    BuyThenSellRestores(l, stock, quantity);
    var after := Sold(Bought(l, stock, quantity), stock, quantity).holdings;
    if stock.symbol in l.holdings {
      assert after == l.holdings;
    } else {
      assert after[stock.symbol] == 0;
      SumOverRemove(after, market, after.Keys, stock.symbol);
      assert after.Keys - {stock.symbol} == l.holdings.Keys;
      SumOverAgree(after, l.holdings, market, l.holdings.Keys);
    }
  }

  /** A short session from a fresh portfolio: buy 10 AAPL at 180.00, fail
      to sell 15, sell the 10 at 190.00. */
  lemma ExampleSession()
    ensures var l1 := Bought(Initial, Stock("AAPL", 18000), 10);
      && l1.cash == 820_000 && Owned(l1.holdings, "AAPL") == 10 && |l1.transactions| == 1
      && !CanSell(l1, Stock("AAPL", 18000), 15)
      && Sold(l1, Stock("AAPL", 18000), 15) == l1
      && var l2 := Sold(l1, Stock("AAPL", 19000), 10);
         l2.cash == 1_010_000 && "AAPL" in l2.holdings && l2.holdings["AAPL"] == 0 && |l2.transactions| == 2
  {
  }

  /** The Java `sell` does not reject a negative quantity: selling -100 shares
      from a fresh portfolio "goes through" and leaves the cash negative. */
  lemma NegativeSellOverdraws()
    ensures CanSell(Initial, Stock("AAPL", 18000), -100)
    ensures Sold(Initial, Stock("AAPL", 18000), -100).cash == -800_000
    ensures !Solvent(Sold(Initial, Stock("AAPL", 18000), -100))
  {
  }

  /** Likewise buying -1 share adds cash and leaves a negative holding. */
  lemma NegativeBuyShorts()
    ensures CanBuy(Initial, Stock("AAPL", 18000), -1)
    ensures Owned(Bought(Initial, Stock("AAPL", 18000), -1).holdings, "AAPL") == -1
    ensures !Solvent(Bought(Initial, Stock("AAPL", 18000), -1))
  {
  }
}
