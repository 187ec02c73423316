/** The practice-zone portfolio document (model/PracticeZoneModel.js): its
    schema bounds and defaults, and its two valuation methods.

    Money is `real` (the JavaScript uses binary floating point); share counts
    are integers, as the client sends them. */
module PracticeZoneModel {

  /** The balance of a newly created portfolio. */
  const InitialBalance: real := 10000.0

  datatype TransactionType = BUY | SELL

  /** One entry of `stocks`. */
  datatype Holding = Holding(code: string, quantity: int, avgPrice: real)

  /** One entry of `transactions` (its timestamp is not modelled). */
  datatype Transaction = Transaction(kind: TransactionType, code: string, quantity: int, price: real)

  /** The stored fields of a portfolio (`userId`, `createdAt` and `lastUpdated` aside). */
  datatype PortfolioState = PortfolioState(balance: real, stocks: seq<Holding>, transactions: seq<Transaction>)

  // ---------------------------------------------------------------------------
  // Upper-case stock codes
  // ---------------------------------------------------------------------------

  function UpperChar(c: char): char {
    if 'a' <= c <= 'z' then (c as int - 32) as char else c
  }

  predicate IsUpper(s: string) {
    forall i :: 0 <= i < |s| ==> !('a' <= s[i] <= 'z')
  }

  /** `toUpperCase`, on the ASCII letters. */
  function ToUpper(s: string): (r: string)
    ensures |r| == |s| && IsUpper(r)
    ensures forall i :: 0 <= i < |s| ==> r[i] == UpperChar(s[i])
    ensures IsUpper(s) ==> r == s
  {
    seq(|s|, i requires 0 <= i < |s| => UpperChar(s[i]))
  }

  // ---------------------------------------------------------------------------
  // Schema bounds
  // ---------------------------------------------------------------------------

  /** A holding the schema accepts: a required upper-case code, quantity and
      average price at least 0. */
  ghost predicate ValidHolding(h: Holding) {
    h.code != "" && IsUpper(h.code) && h.quantity >= 0 && h.avgPrice >= 0.0
  }

  /** A transaction the schema accepts: type BUY or SELL (by construction), a
      required upper-case code, quantity at least 1 and price at least 0. */
  ghost predicate ValidTransaction(t: Transaction) {
    t.code != "" && IsUpper(t.code) && t.quantity >= 1 && t.price >= 0.0
  }

  /** No stock code is held twice (kept by the controller, not by the schema). */
  ghost predicate UniqueCodes(stocks: seq<Holding>) {
    forall i, j :: 0 <= i < j < |stocks| ==> stocks[i].code != stocks[j].code
  }

  /** A portfolio that passes schema validation on save and keeps one holding per code. */
  ghost predicate ValidPortfolio(p: PortfolioState) {
    && p.balance >= 0.0
    && (forall k :: 0 <= k < |p.stocks| ==> ValidHolding(p.stocks[k]))
    && UniqueCodes(p.stocks)
    && (forall k :: 0 <= k < |p.transactions| ==> ValidTransaction(p.transactions[k]))
  }

  /** The default portfolio: the initial balance, no stocks, no transactions. */
  function NewPortfolio(): (p: PortfolioState)
    ensures ValidPortfolio(p)
    ensures p.balance == InitialBalance && p.stocks == [] && p.transactions == []
  {
    PortfolioState(InitialBalance, [], [])
  }

  // ---------------------------------------------------------------------------
  // Valuation (calculatePortfolioValue, calculateReturns)
  // ---------------------------------------------------------------------------

  /** What a holding cost: quantity times average price. */
  function Cost(h: Holding): real {
    h.quantity as real * h.avgPrice
  }

  /** The `reduce` of quantity times average price over the holdings. */
  function Invested(stocks: seq<Holding>): real
    decreases |stocks|
  {
    if stocks == [] then 0.0
    else Invested(stocks[..|stocks| - 1]) + Cost(stocks[|stocks| - 1])
  }

  /** `currentPrices[code] || avgPrice`: a missing or zero current price falls
      back to the average price. */
  function PriceOf(h: Holding, currentPrices: map<string, real>): real {
    if h.code in currentPrices && currentPrices[h.code] != 0.0 then currentPrices[h.code] else h.avgPrice
  }

  /** The `reduce` of quantity times current price over the holdings. */
  function StocksValue(stocks: seq<Holding>, currentPrices: map<string, real>): real
    decreases |stocks|
  {
    if stocks == [] then 0.0
    else
      var last := stocks[|stocks| - 1];
      StocksValue(stocks[..|stocks| - 1], currentPrices) + last.quantity as real * PriceOf(last, currentPrices)
  }

  /** calculatePortfolioValue */
  function PortfolioValue(p: PortfolioState, currentPrices: map<string, real>): real {
    StocksValue(p.stocks, currentPrices) + p.balance
  }

  /** The `absoluteReturn` of calculateReturns. */
  function AbsoluteReturn(p: PortfolioState, currentPrices: map<string, real>): real {
    PortfolioValue(p, currentPrices) - Invested(p.stocks)
  }

  lemma InvestedAppend(stocks: seq<Holding>, h: Holding)
    ensures Invested(stocks + [h]) == Invested(stocks) + Cost(h)
  {
    assert (stocks + [h])[..|stocks|] == stocks;
  }

  /** Replacing one holding changes the invested total by the difference of the two costs. */
  lemma {:induction false} InvestedUpdate(stocks: seq<Holding>, i: int, h: Holding)
    requires 0 <= i < |stocks|
    ensures Invested(stocks[i := h]) == Invested(stocks) - Cost(stocks[i]) + Cost(h)
    decreases |stocks|
  {
    var n := |stocks|;
    var updated := stocks[i := h];
    if i == n - 1 {
      assert updated[..n - 1] == stocks[..n - 1];
    } else {
      InvestedUpdate(stocks[..n - 1], i, h);
      assert updated[..n - 1] == stocks[..n - 1][i := h];
    }
  }

  /** Under the schema bounds nothing is invested below zero. */
  lemma {:induction false} InvestedNonNegative(stocks: seq<Holding>)
    requires forall k :: 0 <= k < |stocks| ==> ValidHolding(stocks[k])
    ensures Invested(stocks) >= 0.0
    decreases |stocks|
  {
    if stocks != [] {
      var last := stocks[|stocks| - 1];
      InvestedNonNegative(stocks[..|stocks| - 1]);
      assert ValidHolding(last);
      assert Cost(last) >= 0.0 by {
        assert last.quantity as real >= 0.0 && last.avgPrice >= 0.0;
      }
    }
  }

  /** Without current prices every holding is valued at its average price. */
  lemma {:induction false} ValueWithoutPricesIsInvested(stocks: seq<Holding>)
    ensures StocksValue(stocks, map[]) == Invested(stocks)
    decreases |stocks|
  {
    if stocks != [] {
      ValueWithoutPricesIsInvested(stocks[..|stocks| - 1]);
    }
  }

  /** Because of `||`, a current price of 0 counts as no price at all. */
  lemma {:induction false} ZeroPriceIgnored(stocks: seq<Holding>, currentPrices: map<string, real>, code: string)
    ensures StocksValue(stocks, currentPrices[code := 0.0]) == StocksValue(stocks, currentPrices - {code})
    decreases |stocks|
  {
    if stocks != [] {
      var last := stocks[|stocks| - 1];
      ZeroPriceIgnored(stocks[..|stocks| - 1], currentPrices, code);
      assert PriceOf(last, currentPrices[code := 0.0]) == PriceOf(last, currentPrices - {code});
    }
  }

  /** With no holdings the portfolio is worth its balance, whatever the prices. */
  lemma ValueWithoutHoldings(p: PortfolioState, currentPrices: map<string, real>)
    requires p.stocks == []
    ensures PortfolioValue(p, currentPrices) == p.balance
    ensures AbsoluteReturn(p, currentPrices) == p.balance
  {
  }

  /** With no current prices, the absolute return is the cash balance. */
  lemma AbsoluteReturnWithoutPrices(p: PortfolioState)
    ensures AbsoluteReturn(p, map[]) == p.balance
  {
    ValueWithoutPricesIsInvested(p.stocks);
  }

  /** With non-negative current prices, a schema-valid portfolio is worth at
      least its balance, and so at least 0. */
  lemma {:induction false} ValueAtLeastBalance(p: PortfolioState, currentPrices: map<string, real>)
    requires ValidPortfolio(p)
    requires forall c :: c in currentPrices ==> currentPrices[c] >= 0.0
    ensures PortfolioValue(p, currentPrices) >= p.balance >= 0.0
  {
    StocksValueNonNegative(p.stocks, currentPrices);
  }

  lemma {:induction false} StocksValueNonNegative(stocks: seq<Holding>, currentPrices: map<string, real>)
    requires forall k :: 0 <= k < |stocks| ==> ValidHolding(stocks[k])
    requires forall c :: c in currentPrices ==> currentPrices[c] >= 0.0
    ensures StocksValue(stocks, currentPrices) >= 0.0
    decreases |stocks|
  {
    if stocks != [] {
      var last := stocks[|stocks| - 1];
      StocksValueNonNegative(stocks[..|stocks| - 1], currentPrices);
      assert ValidHolding(last);
      var price := PriceOf(last, currentPrices);
      assert price >= 0.0;
      assert last.quantity as real * price >= 0.0 by {
        assert last.quantity as real >= 0.0;
      }
    }
  }

  // ---------------------------------------------------------------------------
  // The portfolio document, updated in place by the controller
  // ---------------------------------------------------------------------------

  class Portfolio {
    const userId: string
    var balance: real
    var stocks: seq<Holding>
    var transactions: seq<Transaction>

    function State(): PortfolioState
      reads this
    {
      PortfolioState(balance, stocks, transactions)
    }

    ghost predicate Valid()
      reads this
    {
      ValidPortfolio(State())
    }

    /** `Portfolio.create` with the initial balance and empty lists. */
    constructor (userId: string)
      ensures Valid()
      ensures this.userId == userId && State() == NewPortfolio()
    {
      this.userId := userId;
      balance := InitialBalance;
      stocks := [];
      transactions := [];
    }
  }
}
