/**
 * The exchange simulator used by the back-tests
 * (pkg/infrastructure/memory/exchange.go): a fixed table of rates walked one
 * step at a time, a list of posted orders and the contracts produced when
 * orders fill against the current step's rates.
 */
module MemoryExchange {
  import opened Wrappers
  import opened Model

  /** One step of the rate table. */
  datatype Rate = Rate(storeRate: real, orderBuyRate: real, orderSellRate: real)

  /** The table `NewExchangeMock` starts from: 100 to 112, one per step. */
  const MockRates: seq<Rate> := [
    Rate(100.0, 100.0, 100.0), Rate(101.0, 101.0, 101.0), Rate(102.0, 102.0, 102.0),
    Rate(103.0, 103.0, 103.0), Rate(104.0, 104.0, 104.0), Rate(105.0, 105.0, 105.0),
    Rate(106.0, 106.0, 106.0), Rate(107.0, 107.0, 107.0), Rate(108.0, 108.0, 108.0),
    Rate(109.0, 109.0, 109.0), Rate(110.0, 110.0, 110.0), Rate(111.0, 111.0, 111.0),
    Rate(112.0, 112.0, 112.0)]

  /** A limit buy fills when its bid reaches the ask, or its stop-loss is at or below it. */
  predicate BuyFills(o: Order, rate: Rate)
  {
    (o.rate.Some? && o.rate.value >= rate.orderBuyRate)
    || (o.stopLossRate.Some? && o.stopLossRate.value <= rate.orderBuyRate)
  }

  /** A limit sell fills when its ask reaches the bid, or its stop-loss is at or above it. */
  predicate SellFills(o: Order, rate: Rate)
  {
    (o.rate.Some? && o.rate.value <= rate.orderSellRate)
    || (o.stopLossRate.Some? && o.stopLossRate.value >= rate.orderSellRate)
  }

  /** The contract of a filled buy: the key currency bought with `amount` of the settlement currency. */
  function BuyContract(o: Order, rate: Rate, pair: CurrencyPair, id: nat): (c: Contract)
    requires rate.orderBuyRate > 0.0
    ensures c.decreaseAmount == -o.amount
    ensures c.increaseCurrency == pair.key && c.decreaseCurrency == pair.settlement
    ensures c.id == id && c.orderId == o.id && c.side == BuySide && c.rate == rate.orderBuyRate
  {
    Contract(id, o.id, rate.orderBuyRate, pair.key, o.amount / rate.orderBuyRate,
             pair.settlement, -o.amount, "", 0.0, Taker, BuySide)
  }

  /**
   * The contract of a filled sell: `amount` of the key currency sold. The
   * settlement proceeds are priced at the step's buy rate, as the simulator
   * does.
   */
  function SellContract(o: Order, rate: Rate, pair: CurrencyPair, id: nat): (c: Contract)
    ensures c.decreaseAmount == -o.amount
    ensures c.increaseCurrency == pair.settlement && c.decreaseCurrency == pair.key
    ensures c.id == id && c.orderId == o.id && c.side == SellSide && c.rate == rate.orderSellRate
  {
    Contract(id, o.id, rate.orderSellRate, pair.settlement, o.amount * rate.orderBuyRate,
             pair.key, -o.amount, "", 0.0, Taker, SellSide)
  }

  /**
   * What a fill is worth: a buy receives `amount` divided by the buy rate,
   * and selling at the same step what a buy received gives back what the buy
   * spent, since both sides are priced at the buy rate.
   */
  lemma ContractAmounts(o: Order, rate: Rate, pair: CurrencyPair, id: nat, id2: nat)
    requires rate.orderBuyRate > 0.0
    ensures BuyContract(o, rate, pair, id).increaseAmount * rate.orderBuyRate == o.amount
    ensures var bought := BuyContract(o, rate, pair, id).increaseAmount;
      SellContract(o.(amount := bought), rate, pair, id2).increaseAmount == o.amount
  {
  }

  function OptSeq<T>(x: Option<T>): (s: seq<T>)
    ensures |s| <= 1
    ensures x.Some? ==> s == [x.value]
    ensures x.None? ==> s == []
  {
    if x.Some? then [x.value] else []
  }

  /**
   * The status half of `closeOrder` as written: an open limit order closes
   * when it fills, an open market order always closes, anything else is
   * left as it is.
   */
  function SettleAsWritten(o: Order, rate: Rate): (s: Order)
    ensures s == o || (o.status == Open && s == o.(status := Closed))
  {
    if o.status != Open then o
    else if o.orderType == Buy then (if BuyFills(o, rate) then o.(status := Closed) else o)
    else if o.orderType == Sell then (if SellFills(o, rate) then o.(status := Closed) else o)
    else if o.orderType == MarketBuy || o.orderType == MarketSell then o.(status := Closed)
    else o
  }

  /**
   * The contract half of `closeOrder` as written: an open limit buy is
   * charged when it fills, an open market order always, and an open limit
   * sell whether or not it fills.
   */
  function ChargeAsWritten(o: Order, rate: Rate, pair: CurrencyPair, id: nat): (c: Option<Contract>)
    requires rate.orderBuyRate > 0.0
    ensures o.status != Open ==> c.None?
    ensures c.Some? ==> c.value.id == id && c.value.orderId == o.id
  {
    if o.status != Open then None
    else if o.orderType == Buy then (if BuyFills(o, rate) then Some(BuyContract(o, rate, pair, id)) else None)
    else if o.orderType == MarketBuy then Some(BuyContract(o, rate, pair, id))
    else if o.orderType == Sell || o.orderType == MarketSell then Some(SellContract(o, rate, pair, id))
    else None
  }

  /**
   * `closeOrder` as written: settles an open order against `rate`, giving
   * the order's new state and the contract it produced. A limit sell gets a
   * contract whether or not it filled.
   */
  function CloseAsWritten(o: Order, rate: Rate, pair: CurrencyPair, id: nat): (r: (Order, Option<Contract>))
    requires rate.orderBuyRate > 0.0
    ensures r.0 == o || (o.status == Open && r.0 == o.(status := Closed))
    ensures o.status != Open ==> r == (o, None)
  {
    (SettleAsWritten(o, rate), ChargeAsWritten(o, rate, pair, id))
  }

  /**
   * What `closeOrder` does to an open order of each type: a limit buy
   * closes and is charged exactly when it fills; a limit sell closes when
   * it fills and is charged either way; market orders always close and are
   * charged; an unknown type is left alone.
   */
  lemma CloseAsWrittenSettles(o: Order, rate: Rate, pair: CurrencyPair, id: nat)
    requires rate.orderBuyRate > 0.0 && o.status == Open
    ensures var r := CloseAsWritten(o, rate, pair, id);
      && (o.orderType == Buy ==> (r.0.status == Closed <==> BuyFills(o, rate))
                                 && r.1 == if BuyFills(o, rate) then Some(BuyContract(o, rate, pair, id)) else None)
      && (o.orderType == Sell ==> (r.0.status == Closed <==> SellFills(o, rate))
                                  && r.1 == Some(SellContract(o, rate, pair, id)))
      && (o.orderType == MarketBuy ==> r.0.status == Closed && r.1 == Some(BuyContract(o, rate, pair, id)))
      && (o.orderType == MarketSell ==> r.0.status == Closed && r.1 == Some(SellContract(o, rate, pair, id)))
      && (!(o.orderType in {Buy, Sell, MarketBuy, MarketSell}) ==> r == (o, None))
  {
  }

  /** A limit sell that does not fill stays open and still gets a contract. */
  lemma UnfilledSellGetsContract()
    ensures var o := Order(1, Sell, MonaJpy, 1.0, Some(200.0), None, Open, 0);
            var r := CloseAsWritten(o, MockRates[0], MonaJpy, 1);
            r.0.status == Open && r.1.Some? && r.1.value.orderId == 1
  {
  }

  /**
   * `closeOrder` as intended: an open order fills by its type's rule and
   * only a fill produces a contract. Other orders are left as they are.
   */
  function Close(o: Order, rate: Rate, pair: CurrencyPair, id: nat): (r: (Order, Option<Contract>))
    requires rate.orderBuyRate > 0.0
    ensures r.0 == o || (o.status == Open && r.0 == o.(status := Closed))
    ensures r.1.Some? <==> o.status == Open && r.0.status == Closed
    ensures o.status == Open && o.orderType == Buy ==> (r.0.status == Closed <==> BuyFills(o, rate))
    ensures o.status == Open && o.orderType == Sell ==> (r.0.status == Closed <==> SellFills(o, rate))
    ensures o.status == Open && (o.orderType == MarketBuy || o.orderType == MarketSell) ==> r.0.status == Closed
    ensures !(o.orderType in {Buy, Sell, MarketBuy, MarketSell}) ==> r == (o, None)
    ensures r.1.Some? && (o.orderType == Buy || o.orderType == MarketBuy) ==> r.1.value == BuyContract(o, rate, pair, id)
    ensures r.1.Some? && (o.orderType == Sell || o.orderType == MarketSell) ==> r.1.value == SellContract(o, rate, pair, id)
  {
    if o.status != Open then (o, None)
    else if o.orderType == Buy then
      if BuyFills(o, rate) then (o.(status := Closed), Some(BuyContract(o, rate, pair, id)))
      else (o, None)
    else if o.orderType == MarketBuy then
      (o.(status := Closed), Some(BuyContract(o, rate, pair, id)))
    else if o.orderType == Sell then
      if SellFills(o, rate) then (o.(status := Closed), Some(SellContract(o, rate, pair, id)))
      else (o, None)
    else if o.orderType == MarketSell then
      (o.(status := Closed), Some(SellContract(o, rate, pair, id)))
    else (o, None)
  }

  /** The two definitions differ only on a limit sell that does not fill. */
  lemma CloseAgreesExceptUnfilledSell(o: Order, rate: Rate, pair: CurrencyPair, id: nat)
    requires rate.orderBuyRate > 0.0
    ensures CloseAsWritten(o, rate, pair, id) == Close(o, rate, pair, id)
        <==> !(o.status == Open && o.orderType == Sell && !SellFills(o, rate))
  {
  }

  /**
   * As intended, settling twice at the same rate produces nothing the
   * second time; as written, an unfilled limit sell is charged again.
   */
  lemma CloseSettlesOnce(o: Order, rate: Rate, pair: CurrencyPair, id: nat, id2: nat)
    requires rate.orderBuyRate > 0.0
    ensures var once := Close(o, rate, pair, id).0;
      Close(once, rate, pair, id2) == (once, None)
    ensures var once := CloseAsWritten(o, rate, pair, id).0;
      (CloseAsWritten(once, rate, pair, id2).1.Some? <==> once.status == Open && once.orderType == Sell)
  {
  }

  /** The orders after the loop of `NextStep`: each one settled by `closeOrder` as written. */
  function SweepOrders(os: seq<Order>, rate: Rate): (r: seq<Order>)
    ensures |r| == |os|
    ensures forall k :: 0 <= k < |os| ==> r[k] == os[k] || (os[k].status == Open && r[k] == os[k].(status := Closed))
  {
    seq(|os|, k requires 0 <= k < |os| => SettleAsWritten(os[k], rate))
  }

  /**
   * The contracts the loop of `NextStep` appends for its first `n` orders:
   * each charged in turn by `closeOrder` as written, numbered after those
   * before it.
   */
  function SweepContracts(os: seq<Order>, n: nat, rate: Rate, pair: CurrencyPair, nextId: nat): (cs: seq<Contract>)
    requires rate.orderBuyRate > 0.0 && n <= |os|
    ensures |cs| <= n
  {
    if n == 0 then []
    else
      var front := SweepContracts(os, n - 1, rate, pair, nextId);
      front + OptSeq(ChargeAsWritten(os[n - 1], rate, pair, nextId + |front|))
  }

  /** Contracts from one sweep are numbered consecutively from `nextId`. */
  lemma {:induction false} SweepNumbersContracts(os: seq<Order>, n: nat, rate: Rate, pair: CurrencyPair, nextId: nat, k: nat)
    requires rate.orderBuyRate > 0.0 && n <= |os|
    requires k < |SweepContracts(os, n, rate, pair, nextId)|
    ensures SweepContracts(os, n, rate, pair, nextId)[k].id == nextId + k
  {
    var front := SweepContracts(os, n - 1, rate, pair, nextId);
    if k < |front| {
      SweepNumbersContracts(os, n - 1, rate, pair, nextId, k);
    }
  }

  /**
   * The contracts a repeated sweep produces for the first `n` orders: one
   * sell contract for each that is still an open limit sell, numbered from
   * `nextId`.
   */
  function ResettleContracts(os: seq<Order>, n: nat, rate: Rate, pair: CurrencyPair, nextId: nat): (cs: seq<Contract>)
    requires n <= |os|
    ensures |cs| <= n
    ensures forall k :: 0 <= k < |cs| ==> cs[k].side == SellSide && cs[k].id == nextId + k
  {
    if n == 0 then []
    else
      var front := ResettleContracts(os, n - 1, rate, pair, nextId);
      var o := os[n - 1];
      front + (if o.status == Open && o.orderType == Sell then [SellContract(o, rate, pair, nextId + |front|)] else [])
  }

  /**
   * An order that settling at `rate` leaves as it is: one that is not open,
   * an open limit order that does not fill, or one of an unknown type.
   */
  predicate AtRest(o: Order, rate: Rate)
  {
    o.status != Open
    || (o.orderType == Buy && !BuyFills(o, rate))
    || (o.orderType == Sell && !SellFills(o, rate))
    || !(o.orderType in {Buy, Sell, MarketBuy, MarketSell})
  }

  /** Whatever `closeOrder` leaves behind is at rest at the same rate. */
  lemma SettledIsAtRest(o: Order, rate: Rate)
    ensures AtRest(SettleAsWritten(o, rate), rate)
  {
  }

  /** `closeOrder` on an order at rest changes nothing, but charges an open limit sell again. */
  lemma AtRestSettlesAgain(o: Order, rate: Rate, pair: CurrencyPair, id: nat)
    requires rate.orderBuyRate > 0.0 && AtRest(o, rate)
    ensures SettleAsWritten(o, rate) == o
    ensures ChargeAsWritten(o, rate, pair, id)
      == if o.status == Open && o.orderType == Sell then Some(SellContract(o, rate, pair, id)) else None
  {
  }

  /** Charging orders at rest gives one sell contract per open limit sell. */
  lemma {:induction false} ChargeAtRest(os: seq<Order>, n: nat, rate: Rate, pair: CurrencyPair, nextId: nat)
    requires rate.orderBuyRate > 0.0 && n <= |os|
    requires forall k :: 0 <= k < n ==> AtRest(os[k], rate)
    ensures SweepContracts(os, n, rate, pair, nextId) == ResettleContracts(os, n, rate, pair, nextId)
  {
    if n > 0 {
      ChargeAtRest(os, n - 1, rate, pair, nextId);
      AtRestSettlesAgain(os[n - 1], rate, pair, nextId + |ResettleContracts(os, n - 1, rate, pair, nextId)|);
    }
  }

  /**
   * Sweeping again at the same rate changes no order; its only contracts
   * are new sell contracts for the limit sells that are still open.
   */
  lemma SweepAgainChargesOpenSells(os: seq<Order>, rate: Rate, pair: CurrencyPair, nextId: nat)
    requires rate.orderBuyRate > 0.0
    ensures var once := SweepOrders(os, rate);
      SweepOrders(once, rate) == once
      && SweepContracts(once, |once|, rate, pair, nextId) == ResettleContracts(once, |once|, rate, pair, nextId)
  {
    var once := SweepOrders(os, rate);
    forall k | 0 <= k < |once|
      ensures AtRest(once[k], rate) && SettleAsWritten(once[k], rate) == once[k]
    {
      SettledIsAtRest(os[k], rate);
      AtRestSettlesAgain(once[k], rate, pair, 0);
    }
    ChargeAtRest(once, |once|, rate, pair, nextId);
  }

  /** `DeleteOrder` as written: it indexes the orders by the order id, which starts at 1. */
  function CancelAsWritten(orders: seq<Order>, id: nat): (r: seq<Order>)
    requires id < |orders|
    ensures |r| == |orders| && r[id].status == Canceled
    ensures forall k :: 0 <= k < |orders| && k != id ==> r[k] == orders[k]
  {
    orders[id := orders[id].(status := Canceled)]
  }

  /** Deleting the first of two orders cancels the second one and leaves the first open. */
  lemma CancelAsWrittenHitsNextOrder()
    ensures var o1 := Order(1, Buy, MonaJpy, 1.0, Some(99.0), None, Open, 0);
            var o2 := Order(2, Buy, MonaJpy, 1.0, Some(98.0), None, Open, 0);
            var r := CancelAsWritten([o1, o2], 1);
            r[0].id == 1 && r[0].status == Open && r[1].status == Canceled
  {
  }

  /** The intended `DeleteOrder`: the order whose id is `id` is canceled; an unknown id is an error. */
  function Cancel(orders: seq<Order>, id: nat): (r: Result<seq<Order>>)
    requires forall k :: 0 <= k < |orders| ==> orders[k].id == k + 1
    ensures r.Ok? <==> exists k :: 0 <= k < |orders| && orders[k].id == id
    ensures r.Ok? ==> |r.value| == |orders|
    ensures r.Ok? ==> forall k :: 0 <= k < |orders| ==>
      r.value[k] == if orders[k].id == id then orders[k].(status := Canceled) else orders[k]
  {
    if 1 <= id <= |orders| then Ok(orders[id - 1 := orders[id - 1].(status := Canceled)])
    else Err("order not found")
  }

  /** Orders still open, in posting order (`GetOpenOrders`). */
  function OpenOrders(os: seq<Order>): (r: seq<Order>)
  {
    if os == [] then []
    else OpenOrders(os[..|os| - 1]) + (if os[|os| - 1].status == Open then [os[|os| - 1]] else [])
  }

  lemma {:induction false} OpenOrdersMembership(os: seq<Order>, o: Order)
    ensures o in OpenOrders(os) <==> o in os && o.status == Open
  {
    if os != [] {
      OpenOrdersMembership(os[..|os| - 1], o);
      assert os == os[..|os| - 1] + [os[|os| - 1]];
    }
  }

  /**
   * The simulator's state is consistent: the step is within a non-empty
   * table of positive buy rates, orders are numbered 1, 2, ... in posting
   * order and so are contracts, and every contract belongs to a posted
   * order. That order is no longer open unless it is a limit sell, and only
   * a limit sell can have more than one contract (`closeOrder` charges an
   * unfilled limit sell again at every step).
   */
  ghost predicate Consistent(rates: seq<Rate>, step: nat, orders: seq<Order>, contracts: seq<Contract>)
  {
    |rates| >= 1 && step < |rates|
    && (forall k :: 0 <= k < |rates| ==> rates[k].orderBuyRate > 0.0)
    && (forall k :: 0 <= k < |orders| ==> orders[k].id == k + 1)
    && (forall k :: 0 <= k < |contracts| ==> contracts[k].id == k + 1)
    && (forall k :: 0 <= k < |contracts| ==>
          1 <= contracts[k].orderId <= |orders|
          && (orders[contracts[k].orderId - 1].status != Open || orders[contracts[k].orderId - 1].orderType == Sell))
    && (forall k1, k2 :: 0 <= k1 < k2 < |contracts| && contracts[k1].orderId == contracts[k2].orderId ==>
          orders[contracts[k1].orderId - 1].orderType == Sell)
  }

  /** Settling one order against the current step keeps the state consistent. */
  lemma CloseKeepsConsistent(rates: seq<Rate>, step: nat, orders: seq<Order>, contracts: seq<Contract>,
                             pair: CurrencyPair, i: nat)
    requires Consistent(rates, step, orders, contracts) && i < |orders|
    ensures var r := CloseAsWritten(orders[i], rates[step], pair, |contracts| + 1);
      Consistent(rates, step, orders[i := r.0], contracts + OptSeq(r.1))
  {
    var r := CloseAsWritten(orders[i], rates[step], pair, |contracts| + 1);
    var cs := contracts + OptSeq(r.1);
    assert forall k :: 0 <= k < |contracts| ==> cs[k] == contracts[k];
    assert orders[i].status == Open && orders[i].orderType != Sell ==>
      forall k :: 0 <= k < |contracts| ==> contracts[k].orderId != i + 1;
  }

  /** Consistency does not depend on which step of the table is current. */
  lemma StepKeepsConsistent(rates: seq<Rate>, step: nat, step': nat, orders: seq<Order>, contracts: seq<Contract>)
    requires Consistent(rates, step, orders, contracts) && step' < |rates|
    ensures Consistent(rates, step', orders, contracts)
  {
  }

  /** Posting an order with the next id keeps the state consistent. */
  lemma PostKeepsConsistent(rates: seq<Rate>, step: nat, orders: seq<Order>, contracts: seq<Contract>, o: Order)
    requires Consistent(rates, step, orders, contracts) && o.id == |orders| + 1
    ensures Consistent(rates, step, orders + [o], contracts)
  {
    var os := orders + [o];
    assert forall k :: 0 <= k < |orders| ==> os[k] == orders[k];
  }

  /**
   * The loop state of `NextStep` after settling the first `i` of the orders
   * `os` it started from: those are settled, the rest untouched, and their
   * contracts follow the contracts `cs` there were before.
   */
  ghost predicate SweptUntil(os: seq<Order>, cs: seq<Contract>, i: nat, rate: Rate, pair: CurrencyPair,
                             orders: seq<Order>, contracts: seq<Contract>)
    requires rate.orderBuyRate > 0.0
  {
    i <= |os| && |orders| == |os|
    && (forall k :: 0 <= k < i ==> orders[k] == SettleAsWritten(os[k], rate))
    && (forall k :: i <= k < |os| ==> orders[k] == os[k])
    && contracts == cs + SweepContracts(os, i, rate, pair, |cs| + 1)
  }

  /** Settling the order at `i` carries the loop state of `NextStep` from `i` to `i + 1`. */
  lemma SweepStep(os: seq<Order>, cs: seq<Contract>, i: nat, rate: Rate, pair: CurrencyPair,
                  before: seq<Order>, beforeC: seq<Contract>)
    requires rate.orderBuyRate > 0.0
    requires i < |os|
    requires SweptUntil(os, cs, i, rate, pair, before, beforeC)
    ensures var r := CloseAsWritten(before[i], rate, pair, |beforeC| + 1);
      SweptUntil(os, cs, i + 1, rate, pair, before[i := r.0], beforeC + OptSeq(r.1))
  {
    var front := SweepContracts(os, i, rate, pair, |cs| + 1);
    assert |beforeC| + 1 == |cs| + 1 + |front|;
    AppendAssoc(cs, front, OptSeq(ChargeAsWritten(os[i], rate, pair, |beforeC| + 1)));
  }

  lemma AppendAssoc<T>(a: seq<T>, b: seq<T>, c: seq<T>)
    ensures (a + b) + c == a + (b + c)
  {
  }

  /** Once every order is settled, the loop of `NextStep` has computed the sweep. */
  lemma SweptAll(os: seq<Order>, cs: seq<Contract>, rate: Rate, pair: CurrencyPair,
                 orders: seq<Order>, contracts: seq<Contract>)
    requires rate.orderBuyRate > 0.0
    requires SweptUntil(os, cs, |os|, rate, pair, orders, contracts)
    ensures orders == SweepOrders(os, rate)
    ensures contracts == cs + SweepContracts(os, |os|, rate, pair, |cs| + 1)
  {
  }

  /**
   * The loop of `NextStep`: `closeOrder` applied to every order in turn,
   * against the rates of step `step`.
   */
  method SettleAll(rates: seq<Rate>, step: nat, pair: CurrencyPair, os: seq<Order>, cs: seq<Contract>)
    returns (orders: seq<Order>, contracts: seq<Contract>)
    requires Consistent(rates, step, os, cs)
    ensures Consistent(rates, step, orders, contracts)
    ensures orders == SweepOrders(os, rates[step])
    ensures contracts == cs + SweepContracts(os, |os|, rates[step], pair, |cs| + 1)
  {
    var rate := rates[step];
    orders, contracts := os, cs;
    var i := 0;
    while i < |orders|
      invariant Consistent(rates, step, orders, contracts)
      invariant SweptUntil(os, cs, i, rate, pair, orders, contracts)
    {
      var r := CloseAsWritten(orders[i], rate, pair, |contracts| + 1);
      CloseKeepsConsistent(rates, step, orders, contracts, pair, i);
      SweepStep(os, cs, i, rate, pair, orders, contracts);
      orders := orders[i := r.0];
      contracts := contracts + OptSeq(r.1);
      i := i + 1;
    }
    SweptAll(os, cs, rate, pair, orders, contracts);
  }

  class ExchangeMock {
    const pair: CurrencyPair
    const rates: seq<Rate>
    var currentStep: nat
    var orders: seq<Order>
    var contracts: seq<Contract>

    /** The state of the simulator is consistent (see `Consistent`). */
    ghost predicate Valid()
      reads this
    {
      Consistent(rates, currentStep, orders, contracts)
    }

    /** `NewExchangeMock`: the MONA/JPY market at the first step of the fixed table, no orders. */
    constructor ()
      ensures Valid()
      ensures pair == MonaJpy && rates == MockRates && currentStep == 0
      ensures orders == [] && contracts == []
    {
      pair := MonaJpy;
      rates := MockRates;
      currentStep := 0;
      orders := [];
      contracts := [];
    }

    /** `GetStoreRate`: the store rate of the current step, labelled with `p`. */
    method GetStoreRate(p: CurrencyPair) returns (r: StoreRate)
      requires Valid()
      ensures r == StoreRate(p, rates[currentStep].storeRate)
    {
      r := StoreRate(p, rates[currentStep].storeRate);
    }

    /** `GetOrderRate`: the current step's buy rate for BuySide, its sell rate for any other side. */
    method GetOrderRate(p: CurrencyPair, side: int) returns (r: OrderRate)
      requires Valid()
      ensures r.pair == p && r.side == side
      ensures side == BuySide ==> r.rate == rates[currentStep].orderBuyRate
      ensures side != BuySide ==> r.rate == rates[currentStep].orderSellRate
    {
      var rate := rates[currentStep];
      if side == BuySide {
        return OrderRate(p, side, rate.orderBuyRate);
      }
      return OrderRate(p, side, rate.orderSellRate);
    }

    /** `GetAccountBalance`: the simulator keeps no balance. */
    method GetAccountBalance() returns (r: Option<Balance>)
      ensures r.None?
    {
      return None;
    }

    /** `GetOpenOrders`: the open orders in posting order, whatever the pair asked for. */
    method GetOpenOrders(p: CurrencyPair) returns (oo: seq<Order>)
      ensures oo == OpenOrders(orders)
      ensures forall o :: o in oo <==> o in orders && o.status == Open
    {
      oo := [];
      var i := 0;
      while i < |orders|
        invariant 0 <= i <= |orders|
        invariant oo == OpenOrders(orders[..i])
      {
        assert orders[..i + 1][..i] == orders[..i];
        if orders[i].status == Open {
          oo := oo + [orders[i]];
        }
        i := i + 1;
      }
      assert orders[..i] == orders;
      forall o {
        OpenOrdersMembership(orders, o);
      }
    }

    /** `GetContracts`. */
    method GetContracts() returns (cc: seq<Contract>)
      ensures cc == contracts
    {
      return contracts;
    }

    /** `closeOrder` on the order at `i`: the order is settled and its contract, if any, recorded. */
    method CloseOrder(i: nat)
      requires Valid() && i < |orders|
      modifies this
      ensures Valid()
      ensures currentStep == old(currentStep)
      ensures var r := CloseAsWritten(old(orders)[i], rates[currentStep], pair, |old(contracts)| + 1);
        orders == old(orders)[i := r.0] && contracts == old(contracts) + OptSeq(r.1)
    {
      var r := CloseAsWritten(orders[i], rates[currentStep], pair, |contracts| + 1);
      CloseKeepsConsistent(rates, currentStep, orders, contracts, pair, i);
      orders := orders[i := r.0];
      contracts := contracts + OptSeq(r.1);
    }

    /**
     * `PostOrder`: the order gets the next id and is stored open; a market
     * order is settled at once against the current step. The returned order
     * is the one stored before settling, so it is open.
     */
    method PostOrder(req: OrderRequest) returns (o: Order)
      requires Valid()
      requires req.orderType == MarketBuy ==> req.marketBuyAmount.Some?
      requires req.orderType != MarketBuy ==> req.amount.Some?
      modifies this
      ensures Valid()
      ensures currentStep == old(currentStep)
      ensures o.id == |old(orders)| + 1 && o.status == Open && o.orderedAt == 0
      ensures o.orderType == req.orderType && o.pair == req.pair
      ensures o.amount == if req.orderType == MarketBuy then req.marketBuyAmount.value else req.amount.value
      ensures o.rate == req.rate && o.stopLossRate == req.stopLossRate
      ensures req.orderType != MarketBuy && req.orderType != MarketSell ==>
        orders == old(orders) + [o] && contracts == old(contracts)
      ensures req.orderType == MarketBuy || req.orderType == MarketSell ==>
        var r := CloseAsWritten(o, rates[currentStep], pair, |old(contracts)| + 1);
        orders == old(orders) + [r.0] && contracts == old(contracts) + OptSeq(r.1)
        && r.0.status == Closed && r.1.Some?
    {
      var amount := if req.orderType == MarketBuy then req.marketBuyAmount.value else req.amount.value;
      o := Order(|orders| + 1, req.orderType, req.pair, amount, req.rate, req.stopLossRate, Open, 0);
      PostKeepsConsistent(rates, currentStep, orders, contracts, o);
      orders := orders + [o];
      if req.orderType == MarketBuy || req.orderType == MarketSell {
        CloseOrder(|orders| - 1);
      }
    }

    /** `DeleteOrder`: the order with id `id` is canceled; an unknown id is an error. */
    method DeleteOrder(id: nat) returns (r: Result<()>)
      requires Valid()
      modifies this
      ensures Valid()
      ensures currentStep == old(currentStep)
      ensures contracts == old(contracts)
      ensures Cancel(old(orders), id).Ok? ==> r.Ok? && orders == Cancel(old(orders), id).value
      ensures Cancel(old(orders), id).Err? ==> r.Err? && orders == old(orders)
    {
      var c := Cancel(orders, id);
      if c.Err? {
        return Err(c.msg);
      }
      orders := c.value;
      return Ok(());
    }

    /** `HasNextStep`: whether the table has a step after the current one. */
    function HasNextStep(): (b: bool)
      reads this
      ensures b <==> currentStep + 1 < |rates|
    {
      currentStep < |rates| - 1
    }

    /**
     * `NextStep`: moves to the next step unless at the last one, then
     * settles every order in turn against the rates of the (new) step.
     */
    method NextStep()
      requires Valid()
      modifies this
      ensures Valid()
      ensures currentStep == if old(currentStep) < |rates| - 1 then old(currentStep) + 1 else old(currentStep)
      ensures orders == SweepOrders(old(orders), rates[currentStep])
      ensures contracts == old(contracts) + SweepContracts(old(orders), |old(orders)|, rates[currentStep], pair, |old(contracts)| + 1)
    {
      var step := currentStep;
      if HasNextStep() {
        step := currentStep + 1;
      }
      StepKeepsConsistent(rates, currentStep, step, orders, contracts);
      var settled, added := SettleAll(rates, step, pair, orders, contracts);
      currentStep, orders, contracts := step, settled, added;
    }
  }
}
