/** The practice-zone trading controller (controllers/PracticeZoneController.js).

    `Portfolio.findOne` is abstracted away: its answer is the `Portfolio?`
    argument (null when the user has no portfolio), and `portfolio.save()`
    is the in-place update of that object. The pure functions `BuyOutcome`,
    `SellOutcome` and `Stats` state what each handler does to a portfolio;
    the lemmas about them are the ledger's guarantees, and the methods update
    the document field by field, as the JavaScript does, and are proved to
    follow those functions. */
module PracticeZoneController {
  import opened Wrappers
  import opened PracticeZoneModel

  /** The body of a buy or sell request; absent fields are None. */
  datatype TradeRequest = TradeRequest(code: Option<string>, quantity: Option<int>, price: Option<real>)

  datatype Failure = Failure(status: int, error: string)

  /** A JSON body, or an error status with its message. */
  datatype Response<T> = Json(body: T) | Fail(failure: Failure)

  /** `!code || !quantity || !price`: a field is missing when absent, "" or 0. */
  predicate MissingField(req: TradeRequest) {
    || req.code.None? || req.code.value == ""
    || req.quantity.None? || req.quantity.value == 0
    || req.price.None? || req.price.value == 0.0
  }

  /** The input checks both handlers run before touching the portfolio. */
  function Validate(req: TradeRequest): (e: Option<Failure>)
    ensures e == Some(Failure(400, "Missing required fields")) <==> MissingField(req)
    ensures e == Some(Failure(400, "Invalid quantity or price")) <==>
              !MissingField(req) && (req.quantity.value < 0 || req.price.value < 0.0)
    ensures e.None? <==>
              req.code.Some? && req.code.value != "" &&
              req.quantity.Some? && req.quantity.value > 0 &&
              req.price.Some? && req.price.value > 0.0
  {
    if MissingField(req) then Some(Failure(400, "Missing required fields"))
    else if req.quantity.value <= 0 || req.price.value <= 0.0 then Some(Failure(400, "Invalid quantity or price"))
    else None
  }

  /** `findIndex(s => s.code === code)`: the first holding with that code, or -1. */
  function IndexOf(stocks: seq<Holding>, code: string): (i: int)
    ensures -1 <= i < |stocks|
    ensures i >= 0 ==> stocks[i].code == code && forall k :: 0 <= k < i ==> stocks[k].code != code
    ensures i == -1 ==> forall k :: 0 <= k < |stocks| ==> stocks[k].code != code
    decreases |stocks|
  {
    if stocks == [] then -1
    else if stocks[0].code == code then 0
    else
      var j := IndexOf(stocks[1..], code);
      if j == -1 then -1 else j + 1
  }

  /** `filter(s => s.code !== code)`. */
  function WithoutCode(stocks: seq<Holding>, code: string): (r: seq<Holding>)
    ensures forall k :: 0 <= k < |r| ==> r[k].code != code
    ensures |r| <= |stocks|
    decreases |stocks|
  {
    if stocks == [] then []
    else
      var last := stocks[|stocks| - 1];
      WithoutCode(stocks[..|stocks| - 1], code) + (if last.code == code then [] else [last])
  }

  /** Filtering drops every holding with the code and keeps every other one, as
      often as it occurs. */
  lemma {:induction false} WithoutCodeCounts(stocks: seq<Holding>, code: string, h: Holding)
    ensures multiset(WithoutCode(stocks, code))[h] == if h.code == code then 0 else multiset(stocks)[h]
    decreases |stocks|
  {
    if stocks != [] {
      var init, last := stocks[..|stocks| - 1], stocks[|stocks| - 1];
      assert stocks == init + [last];
      WithoutCodeCounts(init, code, h);
    }
  }

  /** The outcome of a handler on a found portfolio: the response and the
      portfolio as saved (the old one when nothing is saved). */
  datatype Outcome = Outcome(response: Response<PortfolioState>, after: PortfolioState)

  /** The holding after buying `quantity` more at `price`: quantities add up and
      the average price becomes the quantity-weighted mean. */
  function Merged(h: Holding, quantity: int, price: real): (m: Holding)
    requires h.quantity >= 0 && quantity > 0
    ensures m.code == h.code && m.quantity == h.quantity + quantity
  {
    var newQuantity := h.quantity + quantity;
    Holding(h.code, newQuantity, (h.avgPrice * h.quantity as real + price * quantity as real) / newQuantity as real)
  }

  /** The merged holding keeps the code, adds the quantity, and its average
      price is the quantity-weighted mean of the old average and the price. */
  lemma MergedMean(h: Holding, quantity: int, price: real)
    requires h.quantity >= 0 && quantity > 0
    ensures Merged(h, quantity, price).code == h.code
    ensures Merged(h, quantity, price).quantity == h.quantity + quantity
    ensures Merged(h, quantity, price).avgPrice * Merged(h, quantity, price).quantity as real ==
              h.avgPrice * h.quantity as real + price * quantity as real
    ensures Cost(Merged(h, quantity, price)) == Cost(h) + price * quantity as real
  {
    var n := (h.quantity + quantity) as real;
    var total := h.avgPrice * h.quantity as real + price * quantity as real;
    assert n > 0.0;
    assert (total / n) * n == total;
  }

  /** The holdings after buying `quantity` of `code` at `price`: the holding
      with that code is merged, or a new one is appended. */
  function Bought(stocks: seq<Holding>, code: string, quantity: int, price: real): (r: seq<Holding>)
    requires forall k :: 0 <= k < |stocks| ==> stocks[k].quantity >= 0
    requires quantity > 0
    ensures |stocks| <= |r| <= |stocks| + 1
    ensures forall k :: 0 <= k < |stocks| && stocks[k].code != code ==> r[k] == stocks[k]
    ensures IndexOf(r, code) >= 0
  {
    var i := IndexOf(stocks, code);
    if i >= 0 then
      var merged := stocks[i := Merged(stocks[i], quantity, price)];
      assert merged[i].code == code;
      merged
    else
      var appended := stocks + [Holding(code, quantity, price)];
      assert appended[|stocks|].code == code;
      appended
  }

  /** Buying adds exactly what was paid to the invested total. */
  lemma BoughtInvested(stocks: seq<Holding>, code: string, quantity: int, price: real)
    requires forall k :: 0 <= k < |stocks| ==> stocks[k].quantity >= 0
    requires quantity > 0
    ensures Invested(Bought(stocks, code, quantity, price)) == Invested(stocks) + price * quantity as real
  {
    var i := IndexOf(stocks, code);
    if i >= 0 {
      assert Bought(stocks, code, quantity, price) == stocks[i := Merged(stocks[i], quantity, price)];
      MergedInvested(stocks, i, quantity, price);
    } else {
      assert Bought(stocks, code, quantity, price) == stocks + [Holding(code, quantity, price)];
      AppendedInvested(stocks, code, quantity, price);
    }
  }

  lemma MergedInvested(stocks: seq<Holding>, i: int, quantity: int, price: real)
    requires 0 <= i < |stocks| && stocks[i].quantity >= 0 && quantity > 0
    ensures Invested(stocks[i := Merged(stocks[i], quantity, price)]) == Invested(stocks) + price * quantity as real
  {
    var merged := Merged(stocks[i], quantity, price);
    InvestedUpdate(stocks, i, merged);
    MergedMean(stocks[i], quantity, price);
  }

  lemma AppendedInvested(stocks: seq<Holding>, code: string, quantity: int, price: real)
    ensures Invested(stocks + [Holding(code, quantity, price)]) == Invested(stocks) + price * quantity as real
  {
    InvestedAppend(stocks, Holding(code, quantity, price));
  }

  /** buyStock on a found portfolio. */
  function BuyOutcome(p: PortfolioState, req: TradeRequest): (o: Outcome)
    requires ValidPortfolio(p)
  {
    match Validate(req)
    case Some(failure) => Outcome(Fail(failure), p)
    case None =>
      var quantity, price := req.quantity.value, req.price.value;
      var totalCost := price * quantity as real;
      if p.balance < totalCost then Outcome(Fail(Failure(400, "Insufficient balance")), p)
      else
        var code := ToUpper(req.code.value);
        var after := PortfolioState(p.balance - totalCost, Bought(p.stocks, code, quantity, price),
                                    p.transactions + [Transaction(BUY, code, quantity, price)]);
        Outcome(Json(after), after)
  }

  /** The holdings after selling `quantity` of holding `i`: the holding is
      reduced, and filtered out by its code once nothing is left. */
  function Sold(stocks: seq<Holding>, i: int, quantity: int): (r: seq<Holding>)
    requires 0 <= i < |stocks|
    ensures |r| <= |stocks|
    ensures quantity == stocks[i].quantity ==> forall k :: 0 <= k < |r| ==> r[k].code != stocks[i].code
    ensures quantity != stocks[i].quantity ==>
              |r| == |stocks| && r[i].code == stocks[i].code && r[i].quantity == stocks[i].quantity - quantity
  {
    var left := stocks[i].quantity - quantity;
    if left == 0 then WithoutCode(stocks, stocks[i].code)
    else stocks[i := stocks[i].(quantity := left)]
  }

  /** sellStock on a found portfolio. */
  function SellOutcome(p: PortfolioState, req: TradeRequest): (o: Outcome)
    requires ValidPortfolio(p)
  {
    match Validate(req)
    case Some(failure) => Outcome(Fail(failure), p)
    case None =>
      var quantity, price := req.quantity.value, req.price.value;
      var code := ToUpper(req.code.value);
      var i := IndexOf(p.stocks, code);
      if i < 0 || p.stocks[i].quantity < quantity then
        Outcome(Fail(Failure(400, "Insufficient stock quantity")), p)
      else
        var after := PortfolioState(p.balance + price * quantity as real, Sold(p.stocks, i, quantity),
                                    p.transactions + [Transaction(SELL, code, quantity, price)]);
        Outcome(Json(after), after)
  }

  // ---------------------------------------------------------------------------
  // Guarantees of buyStock
  // ---------------------------------------------------------------------------

  /** Every refused buy leaves the portfolio as it was; the refusals are the
      two input checks and an insufficient balance, in that order. */
  lemma BuyRefusals(p: PortfolioState, req: TradeRequest)
    requires ValidPortfolio(p)
    ensures var o := BuyOutcome(p, req);
            && (o.response.Fail? ==> o.after == p)
            && (Validate(req).Some? ==> o.response == Fail(Validate(req).value))
            && (Validate(req).None? ==>
                  (o.response == Fail(Failure(400, "Insufficient balance")) <==>
                   p.balance < req.price.value * req.quantity.value as real))
  {
  }

  /** A successful buy pays exactly price times quantity, so the balance stays
      non-negative, and logs exactly one BUY with the upper-cased code. */
  lemma BuyPaysAndLogs(p: PortfolioState, req: TradeRequest)
    requires ValidPortfolio(p)
    requires BuyOutcome(p, req).response.Json?
    ensures var after := BuyOutcome(p, req).after;
            && BuyOutcome(p, req).response == Json(after)
            && after.balance == p.balance - req.price.value * req.quantity.value as real
            && after.balance >= 0.0
            && after.transactions ==
                 p.transactions + [Transaction(BUY, ToUpper(req.code.value), req.quantity.value, req.price.value)]
  {
  }

  /** A buy of a held code keeps the number of holdings, adds the quantity and
      sets the weighted-mean price; a buy of a new code appends one holding at
      the bought price. Other holdings are untouched. */
  lemma BuyUpdatesHoldings(p: PortfolioState, req: TradeRequest)
    requires ValidPortfolio(p)
    requires BuyOutcome(p, req).response.Json?
    ensures var after := BuyOutcome(p, req).after;
            var code, q, price := ToUpper(req.code.value), req.quantity.value, req.price.value;
            var i := IndexOf(p.stocks, code);
            && (i >= 0 ==>
                  && |after.stocks| == |p.stocks|
                  && after.stocks[i].code == code
                  && after.stocks[i].quantity == p.stocks[i].quantity + q
                  && after.stocks[i].avgPrice * after.stocks[i].quantity as real ==
                       p.stocks[i].avgPrice * p.stocks[i].quantity as real + price * q as real
                  && (forall k :: 0 <= k < |p.stocks| && k != i ==> after.stocks[k] == p.stocks[k]))
            && (i < 0 ==> after.stocks == p.stocks + [Holding(code, q, price)])
  {
    var code, q, price := ToUpper(req.code.value), req.quantity.value, req.price.value;
    var i := IndexOf(p.stocks, code);
    assert BuyOutcome(p, req).after.stocks == Bought(p.stocks, code, q, price);
    if i >= 0 {
      MergedMean(p.stocks[i], q, price);
    }
  }


  /** A successful buy keeps the portfolio schema-valid (so `save` accepts it)
      and keeps one holding per code. */
  lemma BuyKeepsValid(p: PortfolioState, req: TradeRequest)
    requires ValidPortfolio(p)
    ensures ValidPortfolio(BuyOutcome(p, req).after)
  {
    var o := BuyOutcome(p, req);
    if o.response.Json? {
      var code, q, price := ToUpper(req.code.value), req.quantity.value, req.price.value;
      assert Validate(req).None? && !(p.balance < price * q as real) by {
        BuyCases(p, req);
      }
      BuySucceeds(p, req, code, q, price);
      BoughtValid(p.stocks, code, q, price);
      assert o.after.transactions[|p.transactions|] == Transaction(BUY, code, q, price);
    }
  }

  /** Buying a positive quantity of a non-empty upper-case code at a positive
      price keeps every holding schema-valid and one holding per code. */
  lemma BoughtValid(stocks: seq<Holding>, code: string, q: int, price: real)
    requires (forall k :: 0 <= k < |stocks| ==> ValidHolding(stocks[k])) && UniqueCodes(stocks)
    requires code != "" && IsUpper(code) && q > 0 && price > 0.0
    requires forall k :: 0 <= k < |stocks| ==> stocks[k].quantity >= 0  // implied by the first, stated for Bought
    ensures var after := Bought(stocks, code, q, price);
            (forall k :: 0 <= k < |after| ==> ValidHolding(after[k])) && UniqueCodes(after)
  {
    var after := Bought(stocks, code, q, price);
    var i := IndexOf(stocks, code);
    if i >= 0 {
      var h := stocks[i];
      assert ValidHolding(h);
      assert h.avgPrice * h.quantity as real + price * q as real >= 0.0 by {
        assert h.avgPrice * h.quantity as real >= 0.0;
        assert price * q as real >= 0.0;
      }
      assert ValidHolding(after[i]);
      assert forall k :: 0 <= k < |after| ==> after[k].code == stocks[k].code;
    } else {
      assert forall k :: 0 <= k < |stocks| ==> after[k] == stocks[k];
      assert after[|stocks|].code == code;
    }
  }

  /** A buy moves money from cash into holdings at cost: balance plus the
      invested total (the stats' total portfolio value) is unchanged. */
  lemma BuyKeepsBookValue(p: PortfolioState, req: TradeRequest)
    requires ValidPortfolio(p)
    ensures var after := BuyOutcome(p, req).after;
            after.balance + Invested(after.stocks) == p.balance + Invested(p.stocks)
  {
    var o := BuyOutcome(p, req);
    if o.response.Json? {
      var code, q, price := ToUpper(req.code.value), req.quantity.value, req.price.value;
      assert o.after.balance == p.balance - price * q as real;
      assert o.after.stocks == Bought(p.stocks, code, q, price);
      BoughtInvested(p.stocks, code, q, price);
    }
  }


  // ---------------------------------------------------------------------------
  // Guarantees of sellStock
  // ---------------------------------------------------------------------------

  lemma {:induction false} WithoutAbsentCode(stocks: seq<Holding>, code: string)
    requires forall k :: 0 <= k < |stocks| ==> stocks[k].code != code
    ensures WithoutCode(stocks, code) == stocks
    decreases |stocks|
  {
    if stocks != [] {
      WithoutAbsentCode(stocks[..|stocks| - 1], code);
      assert stocks[..|stocks| - 1] + [stocks[|stocks| - 1]] == stocks;
    }
  }

  /** Filtering keeps one holding per code. */
  lemma {:induction false} WithoutCodeKeepsUnique(stocks: seq<Holding>, code: string)
    requires UniqueCodes(stocks)
    ensures UniqueCodes(WithoutCode(stocks, code))
    decreases |stocks|
  {
    if stocks != [] {
      var init, last := stocks[..|stocks| - 1], stocks[|stocks| - 1];
      WithoutCodeKeepsUnique(init, code);
      var rest := WithoutCode(init, code);
      forall k | 0 <= k < |rest| ensures rest[k].code != last.code {
        WithoutCodeCounts(init, code, rest[k]);
        assert multiset(rest)[rest[k]] > 0;
        assert rest[k] in init;
      }
    }
  }

  /** With one holding per code, filtering a held code out removes exactly that
      holding: the multiset of holdings loses that one and nothing else. */
  lemma {:induction false} WithoutHeldCode(stocks: seq<Holding>, i: int)
    requires UniqueCodes(stocks) && 0 <= i < |stocks|
    ensures multiset(WithoutCode(stocks, stocks[i].code)) == multiset(stocks) - multiset{stocks[i]}
    ensures |WithoutCode(stocks, stocks[i].code)| == |stocks| - 1
    decreases |stocks|
  {
    UniqueCodesInit(stocks);
    if i == |stocks| - 1 {
      WithoutHeldLast(stocks);
    } else {
      var init := stocks[..|stocks| - 1];
      WithoutHeldCode(init, i);
      assert init[i] == stocks[i];
      WithoutHeldEarlier(stocks, i);
    }
  }

  /** With one holding per code, filtering a held code out removes exactly that
      holding and keeps the others in their order. */
  lemma {:induction false} WithoutHeldCodeInOrder(stocks: seq<Holding>, i: int)
    requires UniqueCodes(stocks) && 0 <= i < |stocks|
    ensures WithoutCode(stocks, stocks[i].code) == stocks[..i] + stocks[i + 1..]
    decreases |stocks|
  {
    var n := |stocks|;
    var code := stocks[i].code;
    var init, last := stocks[..n - 1], stocks[n - 1];
    UniqueCodesInit(stocks);
    if i == n - 1 {
      WithoutAbsentCode(init, code);
      assert stocks[i + 1..] == [];
    } else {
      assert init[i] == stocks[i];
      WithoutHeldCodeInOrder(init, i);
      assert WithoutCode(stocks, code) == WithoutCode(init, code) + [last];
      assert init[..i] == stocks[..i];
      assert init[i + 1..] + [last] == stocks[i + 1..];
    }
  }

  /** One holding per code, split into the holdings before the last one and
      the last one. */
  lemma UniqueCodesInit(stocks: seq<Holding>)
    requires UniqueCodes(stocks) && stocks != []
    ensures UniqueCodes(stocks[..|stocks| - 1])
    ensures forall k :: 0 <= k < |stocks| - 1 ==> stocks[k].code != stocks[|stocks| - 1].code
  {
  }

  /** The base case of WithoutHeldCode: the held code is on the last holding. */
  lemma WithoutHeldLast(stocks: seq<Holding>)
    requires stocks != [] && forall k :: 0 <= k < |stocks| - 1 ==> stocks[k].code != stocks[|stocks| - 1].code
    ensures var last := stocks[|stocks| - 1];
            && multiset(WithoutCode(stocks, last.code)) == multiset(stocks) - multiset{last}
            && |WithoutCode(stocks, last.code)| == |stocks| - 1
  {
    var n := |stocks|;
    var init, last := stocks[..n - 1], stocks[n - 1];
    assert WithoutCode(stocks, last.code) == init by {
      assert forall k :: 0 <= k < |init| ==> init[k].code != last.code;
      WithoutAbsentCode(init, last.code);
    }
    assert multiset(stocks) - multiset{last} == multiset(init) by {
      assert stocks == init + [last];
    }
  }


  /** The step of WithoutHeldCode: the held code is before the last holding,
      which the filter keeps. */
  lemma WithoutHeldEarlier(stocks: seq<Holding>, i: int)
    requires 0 <= i < |stocks| - 1 && stocks[|stocks| - 1].code != stocks[i].code
    requires var init := stocks[..|stocks| - 1];
             && multiset(WithoutCode(init, stocks[i].code)) == multiset(init) - multiset{stocks[i]}
             && |WithoutCode(init, stocks[i].code)| == |init| - 1
    ensures multiset(WithoutCode(stocks, stocks[i].code)) == multiset(stocks) - multiset{stocks[i]}
    ensures |WithoutCode(stocks, stocks[i].code)| == |stocks| - 1
  {
    var n := |stocks|;
    var code, held := stocks[i].code, stocks[i];
    var init, last := stocks[..n - 1], stocks[n - 1];
    var rest := WithoutCode(init, code);
    assert WithoutCode(stocks, code) == rest + [last];
    assert held in multiset(init) by {
      assert init[i] == held;
    }
    assert multiset(stocks) == multiset(init) + multiset{last} by {
      assert stocks == init + [last];
    }
    assert multiset(rest + [last]) == multiset(rest) + multiset{last};
    MultisetSwap(multiset(init), held, last);
  }

  lemma MultisetSwap<T>(m: multiset<T>, x: T, y: T)
    requires x in m
    ensures (m - multiset{x}) + multiset{y} == (m + multiset{y}) - multiset{x}
  {
  }


  /** Filtering a held code out takes that holding's cost off the invested total. */
  lemma {:induction false} WithoutHeldCodeInvested(stocks: seq<Holding>, i: int)
    requires UniqueCodes(stocks) && 0 <= i < |stocks|
    ensures Invested(WithoutCode(stocks, stocks[i].code)) == Invested(stocks) - Cost(stocks[i])
    decreases |stocks|
  {
    var n := |stocks|;
    var code := stocks[i].code;
    var init, last := stocks[..n - 1], stocks[n - 1];
    if i == n - 1 {
      WithoutAbsentCode(init, code);
      assert WithoutCode(stocks, code) == init;
    } else {
      assert last.code != code;
      WithoutHeldCodeInvested(init, i);
      var rest := WithoutCode(init, code);
      assert WithoutCode(stocks, code) == rest + [last];
      InvestedAppend(rest, last);
    }
  }

  /** Every refused sell leaves the portfolio as it was; after the input checks
      the one refusal is an absent code or too few shares. */
  lemma SellRefusals(p: PortfolioState, req: TradeRequest)
    requires ValidPortfolio(p)
    ensures var o := SellOutcome(p, req);
            && (o.response.Fail? ==> o.after == p)
            && (Validate(req).Some? ==> o.response == Fail(Validate(req).value))
            && (Validate(req).None? ==>
                  (o.response == Fail(Failure(400, "Insufficient stock quantity")) <==>
                   var i := IndexOf(p.stocks, ToUpper(req.code.value));
                   i < 0 || p.stocks[i].quantity < req.quantity.value))
  {
  }

  /** A successful sell credits price times quantity, logs one SELL, and
      reduces the holding by the quantity, removing it when it reaches 0. */
  lemma SellUpdates(p: PortfolioState, req: TradeRequest)
    requires ValidPortfolio(p)
    requires SellOutcome(p, req).response.Json?
    ensures var after := SellOutcome(p, req).after;
            var code, q, price := ToUpper(req.code.value), req.quantity.value, req.price.value;
            var i := IndexOf(p.stocks, code);
            && 0 <= i && q <= p.stocks[i].quantity
            && SellOutcome(p, req).response == Json(after)
            && after.balance == p.balance + price * q as real
            && after.transactions == p.transactions + [Transaction(SELL, code, q, price)]
            && (q < p.stocks[i].quantity ==>
                  && |after.stocks| == |p.stocks|
                  && after.stocks[i] == p.stocks[i].(quantity := p.stocks[i].quantity - q)
                  && (forall k :: 0 <= k < |p.stocks| && k != i ==> after.stocks[k] == p.stocks[k]))
            && (q == p.stocks[i].quantity ==>
                  && |after.stocks| == |p.stocks| - 1
                  && after.stocks == p.stocks[..i] + p.stocks[i + 1..]
                  && multiset(after.stocks) == multiset(p.stocks) - multiset{p.stocks[i]}
                  && (forall k :: 0 <= k < |after.stocks| ==> after.stocks[k].code != code))
  {
    var code, q, price := ToUpper(req.code.value), req.quantity.value, req.price.value;
    var i := IndexOf(p.stocks, code);
    assert Validate(req).None? && 0 <= i && q <= p.stocks[i].quantity by {
      SellCases(p, req);
    }
    SellSucceeds(p, req, code, i, q, price);
    if p.stocks[i].quantity == q {
      WithoutHeldCode(p.stocks, i);
      WithoutHeldCodeInOrder(p.stocks, i);
    }
  }

  /** Selling part or all of a holding keeps every holding schema-valid and
      one holding per code. */
  lemma SoldValid(stocks: seq<Holding>, i: int, q: int)
    requires (forall k :: 0 <= k < |stocks| ==> ValidHolding(stocks[k])) && UniqueCodes(stocks)
    requires 0 <= i < |stocks| && 0 < q <= stocks[i].quantity
    ensures var after := Sold(stocks, i, q);
            (forall k :: 0 <= k < |after| ==> ValidHolding(after[k])) && UniqueCodes(after)
  {
    var after := Sold(stocks, i, q);
    var code := stocks[i].code;
    if q == stocks[i].quantity {
      assert after == WithoutCode(stocks, code);
      WithoutCodeKeepsUnique(stocks, code);
      forall k | 0 <= k < |after| ensures ValidHolding(after[k]) {
        WithoutCodeCounts(stocks, code, after[k]);
        assert multiset(after)[after[k]] > 0;
        assert after[k] in stocks;
      }
    } else {
      assert after == stocks[i := stocks[i].(quantity := stocks[i].quantity - q)];
      assert forall k :: 0 <= k < |after| ==> after[k].code == stocks[k].code;
    }
  }

  /** A successful sell keeps the portfolio schema-valid and keeps one holding per code. */
  lemma SellKeepsValid(p: PortfolioState, req: TradeRequest)
    requires ValidPortfolio(p)
    ensures ValidPortfolio(SellOutcome(p, req).after)
  {
    var o := SellOutcome(p, req);
    if o.response.Json? {
      var code, q, price := ToUpper(req.code.value), req.quantity.value, req.price.value;
      var i := IndexOf(p.stocks, code);
      var after := o.after;
      assert after.stocks == Sold(p.stocks, i, q);
      SoldValid(p.stocks, i, q);
      assert after.balance >= 0.0 by {
        assert price * q as real >= 0.0;
      }
      assert after.transactions[|p.transactions|].code == code;
    }
  }

  /** Splitting a holding in two: what it cost is what the q shares taken out
      cost plus what the rest cost. */
  lemma SaleCost(h: Holding, q: int)
    ensures Cost(h) == Cost(h.(quantity := q)) + Cost(h.(quantity := h.quantity - q))
  {
    assert h.quantity as real == q as real + (h.quantity - q) as real;
  }

  /** Selling `q` shares of a holding takes what those shares cost at the
      average price off the invested total, whether the holding is reduced or
      removed. */
  lemma SoldInvested(stocks: seq<Holding>, i: int, q: int)
    requires UniqueCodes(stocks) && 0 <= i < |stocks| && 0 < q <= stocks[i].quantity
    ensures Invested(Sold(stocks, i, q)) == Invested(stocks) - Cost(stocks[i].(quantity := q))
  {
    if q == stocks[i].quantity {
      SoldAllInvested(stocks, i, q);
      assert stocks[i].(quantity := q) == stocks[i];
    } else {
      SoldSomeInvested(stocks, i, q);
    }
  }

  lemma SoldAllInvested(stocks: seq<Holding>, i: int, q: int)
    requires UniqueCodes(stocks) && 0 <= i < |stocks| && q == stocks[i].quantity
    ensures Invested(Sold(stocks, i, q)) == Invested(stocks) - Cost(stocks[i])
  {
    assert Sold(stocks, i, q) == WithoutCode(stocks, stocks[i].code);
    WithoutHeldCodeInvested(stocks, i);
  }

  lemma SoldSomeInvested(stocks: seq<Holding>, i: int, q: int)
    requires 0 <= i < |stocks| && q != stocks[i].quantity
    ensures Invested(Sold(stocks, i, q)) == Invested(stocks) - Cost(stocks[i].(quantity := q))
  {
    var h := stocks[i];
    var reduced := h.(quantity := h.quantity - q);
    assert Sold(stocks, i, q) == stocks[i := reduced];
    InvestedUpdate(stocks, i, reduced);
    SaleCost(h, q);
  }

  /** A sell turns shares held at their average price into cash at the sale
      price: balance plus invested total grows by the sale amount less what the
      sold shares cost at their average price. */
  lemma SellBookValue(p: PortfolioState, req: TradeRequest)
    requires ValidPortfolio(p)
    requires SellOutcome(p, req).response.Json?
    ensures var after := SellOutcome(p, req).after;
            var i := IndexOf(p.stocks, ToUpper(req.code.value));
            0 <= i &&
            after.balance + Invested(after.stocks) ==
              p.balance + Invested(p.stocks) + req.price.value * req.quantity.value as real
                - Cost(p.stocks[i].(quantity := req.quantity.value))
  {
    var code, q, price := ToUpper(req.code.value), req.quantity.value, req.price.value;
    var i := IndexOf(p.stocks, code);
    var after := SellOutcome(p, req).after;
    assert Validate(req).None? && 0 <= i && q <= p.stocks[i].quantity by {
      SellCases(p, req);
    }
    assert after.balance == p.balance + price * q as real && after.stocks == Sold(p.stocks, i, q) by {
      SellSucceeds(p, req, code, i, q, price);
    }
    SoldBookValue(p.balance, p.stocks, i, q, price);
  }

  /** Book value of a sale of `q` shares of holding `i` at `price`. */
  lemma SoldBookValue(balance: real, stocks: seq<Holding>, i: int, q: int, price: real)
    requires UniqueCodes(stocks) && 0 <= i < |stocks| && 0 < q <= stocks[i].quantity
    ensures (balance + price * q as real) + Invested(Sold(stocks, i, q)) ==
            balance + Invested(stocks) + price * q as real - Cost(stocks[i].(quantity := q))
  {
    SoldInvested(stocks, i, q);
  }

  // ---------------------------------------------------------------------------
  // initializePortfolio and getPortfolioStats
  // ---------------------------------------------------------------------------

  /** initializePortfolio over a store of portfolios by user: an existing
      portfolio is returned unchanged, otherwise the default one is created. */
  function Initialized(store: map<string, PortfolioState>, userId: string): (r: (map<string, PortfolioState>, PortfolioState))
    ensures userId in store ==> r == (store, store[userId])
    ensures userId !in store ==> r.1 == NewPortfolio() && r.0 == store[userId := NewPortfolio()]
  {
    if userId in store then (store, store[userId])
    else (store[userId := NewPortfolio()], NewPortfolio())
  }

  /** Initializing twice is initializing once. */
  lemma InitializeIdempotent(store: map<string, PortfolioState>, userId: string)
    ensures Initialized(Initialized(store, userId).0, userId) == Initialized(store, userId)
  {
  }

  datatype PortfolioStats = PortfolioStats(
    totalInvestment: real,
    availableBalance: real,
    numberOfStocks: nat,
    latestTransaction: Option<Transaction>,
    totalPortfolioValue: real)

  /** The statistics getPortfolioStats reports for a found portfolio. */
  function Stats(p: PortfolioState): (s: PortfolioStats)
    ensures s.availableBalance == p.balance && s.numberOfStocks == |p.stocks|
    ensures s.totalPortfolioValue == s.totalInvestment + p.balance
    ensures s.latestTransaction.None? <==> p.transactions == []
    ensures s.latestTransaction.Some? ==> s.latestTransaction.value == p.transactions[|p.transactions| - 1]
  {
    var totalInvestment := Invested(p.stocks);
    PortfolioStats(totalInvestment, p.balance, |p.stocks|,
                   if p.transactions == [] then None else Some(p.transactions[|p.transactions| - 1]),
                   totalInvestment + p.balance)
  }

  /** getPortfolioStats: 404 without a portfolio. */
  function GetPortfolioStats(found: Option<PortfolioState>): (r: Response<PortfolioStats>)
    ensures found.None? <==> r == Fail(Failure(404, "Portfolio not found"))
    ensures found.Some? ==> r == Json(Stats(found.value))
  {
    match found
    case None => Fail(Failure(404, "Portfolio not found"))
    case Some(p) => Json(Stats(p))
  }

  /** The stats' total value is the model's portfolio value at average prices,
      and for a schema-valid portfolio the invested total is not negative. */
  lemma StatsAgreeWithValuation(p: PortfolioState)
    requires ValidPortfolio(p)
    ensures Stats(p).totalPortfolioValue == PortfolioValue(p, map[])
    ensures Stats(p).totalInvestment >= 0.0
  {
    ValueWithoutPricesIsInvested(p.stocks);
    InvestedNonNegative(p.stocks);
  }

  /** After a successful buy the stats report the same total value, the buy as
      latest transaction, and one more stock exactly when the code was new. */
  lemma StatsAfterBuy(p: PortfolioState, req: TradeRequest)
    requires ValidPortfolio(p)
    requires BuyOutcome(p, req).response.Json?
    ensures var s, s' := Stats(p), Stats(BuyOutcome(p, req).after);
            && s'.totalPortfolioValue == s.totalPortfolioValue
            && s'.latestTransaction ==
                 Some(Transaction(BUY, ToUpper(req.code.value), req.quantity.value, req.price.value))
            && s'.numberOfStocks ==
                 s.numberOfStocks + (if IndexOf(p.stocks, ToUpper(req.code.value)) < 0 then 1 else 0)
  {
    BuyKeepsBookValue(p, req);
    BuyUpdatesHoldings(p, req);
  }

  // ---------------------------------------------------------------------------
  // The handlers, updating the found document in place
  // ---------------------------------------------------------------------------

  /** initializePortfolio; `found` is what `Portfolio.findOne` returned. */
  method InitializePortfolio(found: Portfolio?, userId: string) returns (portfolio: Portfolio)
    ensures found != null ==> portfolio == found
    ensures found == null ==> fresh(portfolio) && portfolio.userId == userId && portfolio.State() == NewPortfolio()
  {
    if found == null {
      portfolio := new Portfolio(userId);
    } else {
      portfolio := found;
    }
  }

  /** BuyOutcome branch by branch, for the method that follows it. */
  lemma BuyCases(p: PortfolioState, req: TradeRequest)
    requires ValidPortfolio(p)
    ensures Validate(req).Some? ==> BuyOutcome(p, req) == Outcome(Fail(Validate(req).value), p)
    ensures Validate(req).None? && p.balance < req.price.value * req.quantity.value as real ==>
              BuyOutcome(p, req) == Outcome(Fail(Failure(400, "Insufficient balance")), p)
  {
  }

  /** The successful branch of BuyOutcome. */
  lemma BuySucceeds(p: PortfolioState, req: TradeRequest, code: string, q: int, price: real)
    requires ValidPortfolio(p) && Validate(req).None?
    requires code == ToUpper(req.code.value) && q == req.quantity.value && price == req.price.value
    requires !(p.balance < price * q as real)
    ensures var after := PortfolioState(p.balance - price * q as real, Bought(p.stocks, code, q, price),
                                        p.transactions + [Transaction(BUY, code, q, price)]);
            BuyOutcome(p, req) == Outcome(Json(after), after)
  {
  }

  /** SellOutcome's refusals, for the method that follows it. */
  lemma SellCases(p: PortfolioState, req: TradeRequest)
    requires ValidPortfolio(p)
    ensures Validate(req).Some? ==> SellOutcome(p, req) == Outcome(Fail(Validate(req).value), p)
    ensures Validate(req).None? ==>
              var i := IndexOf(p.stocks, ToUpper(req.code.value));
              i < 0 || p.stocks[i].quantity < req.quantity.value ==>
                SellOutcome(p, req) == Outcome(Fail(Failure(400, "Insufficient stock quantity")), p)
  {
  }

  /** The successful branch of SellOutcome. */
  lemma SellSucceeds(p: PortfolioState, req: TradeRequest, code: string, i: int, q: int, price: real)
    requires ValidPortfolio(p) && Validate(req).None?
    requires code == ToUpper(req.code.value) && q == req.quantity.value && price == req.price.value
    requires i == IndexOf(p.stocks, code) && 0 <= i && q <= p.stocks[i].quantity
    ensures var after := PortfolioState(p.balance + price * q as real, Sold(p.stocks, i, q),
                                        p.transactions + [Transaction(SELL, code, q, price)]);
            SellOutcome(p, req) == Outcome(Json(after), after)
  {
    assert !(i < 0 || p.stocks[i].quantity < q);
    var sold := Sold(p.stocks, i, q);
    assert SellOutcome(p, req).after.stocks == sold;
  }


  /** buyStock; `portfolio` is what `Portfolio.findOne` returned. */
  method BuyStock(portfolio: Portfolio?, req: TradeRequest) returns (resp: Response<PortfolioState>)
    requires portfolio != null ==> portfolio.Valid()
    modifies portfolio
    ensures Validate(req).Some? ==> resp == Fail(Validate(req).value)
    ensures Validate(req).None? && portfolio == null ==> resp == Fail(Failure(404, "Portfolio not found"))
    ensures portfolio != null ==>
              portfolio.Valid() && Outcome(resp, portfolio.State()) == BuyOutcome(old(portfolio.State()), req)
  {
    if portfolio != null {
      BuyCases(portfolio.State(), req);
      BuyKeepsValid(portfolio.State(), req);
    }
    if MissingField(req) {
      return Fail(Failure(400, "Missing required fields"));
    }
    var code, quantity, price := req.code.value, req.quantity.value, req.price.value;
    if quantity <= 0 || price <= 0.0 {
      return Fail(Failure(400, "Invalid quantity or price"));
    }
    if portfolio == null {
      return Fail(Failure(404, "Portfolio not found"));
    }
    ghost var before := portfolio.State();
    BuyCases(before, req);
    var totalCost := price * quantity as real;
    if portfolio.balance < totalCost {
      return Fail(Failure(400, "Insufficient balance"));
    }
    var upper := ToUpper(code);
    BuySucceeds(before, req, upper, quantity, price);
    RecordBuy(portfolio, upper, quantity, price);
    resp := Json(portfolio.State());
  }

  /** The in-place part of buyStock, once every check has passed: merge or
      append the holding, debit the cost, log the BUY. */
  method RecordBuy(portfolio: Portfolio, upper: string, quantity: int, price: real)
    requires forall k :: 0 <= k < |portfolio.stocks| ==> portfolio.stocks[k].quantity >= 0
    requires quantity > 0
    modifies portfolio
    ensures portfolio.State() ==
              PortfolioState(old(portfolio.balance) - price * quantity as real,
                             Bought(old(portfolio.stocks), upper, quantity, price),
                             old(portfolio.transactions) + [Transaction(BUY, upper, quantity, price)])
  {
    var totalCost := price * quantity as real;
    var stockIndex := IndexOf(portfolio.stocks, upper);
    if stockIndex >= 0 {
      var existing := portfolio.stocks[stockIndex];
      var newQuantity := existing.quantity + quantity;
      var newAvgPrice := (existing.avgPrice * existing.quantity as real + price * quantity as real) / newQuantity as real;
      assert Holding(existing.code, newQuantity, newAvgPrice) == Merged(existing, quantity, price);
      portfolio.stocks := portfolio.stocks[stockIndex := Holding(existing.code, newQuantity, newAvgPrice)];
    } else {
      portfolio.stocks := portfolio.stocks + [Holding(upper, quantity, price)];
    }
    assert portfolio.stocks == Bought(old(portfolio.stocks), upper, quantity, price);
    portfolio.balance := portfolio.balance - totalCost;
    portfolio.transactions := portfolio.transactions + [Transaction(BUY, upper, quantity, price)];
  }


  /** sellStock; `portfolio` is what `Portfolio.findOne` returned. */
  method SellStock(portfolio: Portfolio?, req: TradeRequest) returns (resp: Response<PortfolioState>)
    requires portfolio != null ==> portfolio.Valid()
    modifies portfolio
    ensures Validate(req).Some? ==> resp == Fail(Validate(req).value)
    ensures Validate(req).None? && portfolio == null ==> resp == Fail(Failure(404, "Portfolio not found"))
    ensures portfolio != null ==>
              portfolio.Valid() && Outcome(resp, portfolio.State()) == SellOutcome(old(portfolio.State()), req)
  {
    if portfolio != null {
      SellCases(portfolio.State(), req);
      SellKeepsValid(portfolio.State(), req);
    }
    if MissingField(req) {
      return Fail(Failure(400, "Missing required fields"));
    }
    var code, quantity, price := req.code.value, req.quantity.value, req.price.value;
    if quantity <= 0 || price <= 0.0 {
      return Fail(Failure(400, "Invalid quantity or price"));
    }
    if portfolio == null {
      return Fail(Failure(404, "Portfolio not found"));
    }
    ghost var before := portfolio.State();
    var upper := ToUpper(code);
    var stockIndex := IndexOf(portfolio.stocks, upper);
    if stockIndex < 0 || portfolio.stocks[stockIndex].quantity < quantity {
      return Fail(Failure(400, "Insufficient stock quantity"));
    }
    SellSucceeds(before, req, upper, stockIndex, quantity, price);
    var stock := portfolio.stocks[stockIndex];
    portfolio.stocks := portfolio.stocks[stockIndex := stock.(quantity := stock.quantity - quantity)];
    var saleAmount := price * quantity as real;
    if stock.quantity - quantity == 0 {
      portfolio.stocks := WithoutCode(portfolio.stocks, upper);
      assert portfolio.stocks == WithoutCode(old(portfolio.stocks), upper) by {
        WithoutZeroedHolding(old(portfolio.stocks), stockIndex, upper);
      }
    }
    assert portfolio.stocks == Sold(before.stocks, stockIndex, quantity);
    portfolio.balance := portfolio.balance + saleAmount;
    portfolio.transactions := portfolio.transactions + [Transaction(SELL, upper, quantity, price)];
    resp := Json(portfolio.State());
  }

  /** Filtering a code out does not depend on what the filtered holding held,
      so zeroing the holding in place before the filter changes nothing. */
  lemma {:induction false} WithoutZeroedHolding(stocks: seq<Holding>, i: int, code: string)
    requires 0 <= i < |stocks| && stocks[i].code == code
    ensures WithoutCode(stocks[i := stocks[i].(quantity := 0)], code) == WithoutCode(stocks, code)
    decreases |stocks|
  {
    var n := |stocks|;
    var zeroed := stocks[i := stocks[i].(quantity := 0)];
    if i == n - 1 {
      assert zeroed[..n - 1] == stocks[..n - 1];
    } else {
      WithoutZeroedHolding(stocks[..n - 1], i, code);
      assert zeroed[..n - 1] == stocks[..n - 1][i := stocks[i].(quantity := 0)];
    }
  }
}
