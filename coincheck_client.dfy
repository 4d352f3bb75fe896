/**
 * The data mapping of the Coincheck client (pkg/infrastructure/coincheck/client.go):
 * exchange responses turned into domain values. The HTTP calls themselves
 * are not modelled; their decoded responses (or their failure) are inputs.
 */
module CoincheckClient {
  import opened Wrappers
  import opened Model
  import opened CoincheckUtil

  /** An open order as the exchange reports it (all numbers as text). */
  datatype OpenOrder = OpenOrder(
    id: nat,
    orderType: string,
    rate: string,
    pair: string,
    pendingAmount: string,
    stopLossRate: string,
    createdAt: int)

  /**
   * A transaction as the exchange reports it. `funds` lists the entries of
   * the JSON `funds` object in the order Go's map iteration visits them,
   * which Go leaves unspecified: the order is an input here.
   */
  datatype OrderTransaction = OrderTransaction(
    id: nat,
    orderId: nat,
    createdAt: int,
    funds: seq<(string, string)>,
    pairStr: string,
    rate: string,
    feeCurrency: string,
    fee: string,
    liquidity: string,
    side: string)

  /** The account balance response (amounts as text). */
  datatype AccountBalance = AccountBalance(
    jpy: string, jpyReserved: string,
    btc: string, btcReserved: string,
    etc: string, etcReserved: string,
    fct: string, fctReserved: string,
    mona: string, monaReserved: string)

  // ---------------------------------------------------------------------
  // GetBalance
  // ---------------------------------------------------------------------

  /**
   * `GetBalance`: the amount and reserved fields of the requested currency,
   * parsed with default 0; a failed request or an unknown currency is an error.
   */
  function GetBalance(currency: CurrencyType, res: Result<AccountBalance>, parse: string -> Option<real>): (r: Result<Balance>)
    ensures res.Err? ==> r.Err?
    ensures r.Ok? <==> res.Ok? && currency in {JPY, BTC, ETC, FCT, MONA}
    ensures r.Ok? ==> r.value.currency == currency
    ensures r.Ok? && currency == JPY ==>
      r.value.amount == ToFloat(res.value.jpy, 0.0, parse) && r.value.reserved == ToFloat(res.value.jpyReserved, 0.0, parse)
    ensures r.Ok? && currency == BTC ==>
      r.value.amount == ToFloat(res.value.btc, 0.0, parse) && r.value.reserved == ToFloat(res.value.btcReserved, 0.0, parse)
    ensures r.Ok? && currency == ETC ==>
      r.value.amount == ToFloat(res.value.etc, 0.0, parse) && r.value.reserved == ToFloat(res.value.etcReserved, 0.0, parse)
    ensures r.Ok? && currency == FCT ==>
      r.value.amount == ToFloat(res.value.fct, 0.0, parse) && r.value.reserved == ToFloat(res.value.fctReserved, 0.0, parse)
    ensures r.Ok? && currency == MONA ==>
      r.value.amount == ToFloat(res.value.mona, 0.0, parse) && r.value.reserved == ToFloat(res.value.monaReserved, 0.0, parse)
  {
    var b :- res;
    if currency == JPY then Ok(Balance(currency, ToFloat(b.jpy, 0.0, parse), ToFloat(b.jpyReserved, 0.0, parse)))
    else if currency == BTC then Ok(Balance(currency, ToFloat(b.btc, 0.0, parse), ToFloat(b.btcReserved, 0.0, parse)))
    else if currency == ETC then Ok(Balance(currency, ToFloat(b.etc, 0.0, parse), ToFloat(b.etcReserved, 0.0, parse)))
    else if currency == FCT then Ok(Balance(currency, ToFloat(b.fct, 0.0, parse), ToFloat(b.fctReserved, 0.0, parse)))
    else if currency == MONA then Ok(Balance(currency, ToFloat(b.mona, 0.0, parse), ToFloat(b.monaReserved, 0.0, parse)))
    else Err("failed to get balance, unknown ")
  }

  // ---------------------------------------------------------------------
  // GetOpenOrders
  // ---------------------------------------------------------------------

  /** Whether an exchange order survives the pair filter (no filter when `pair` is nil). */
  predicate Kept(pair: Option<CurrencyPair>, o: OpenOrder)
  {
    pair.None? || o.pair == PairString(pair.value)
  }

  /** Every order that survives the filter has a pair text `toCurrencyPair` can split. */
  predicate Splittable(pair: Option<CurrencyPair>, oo: seq<OpenOrder>)
  {
    forall k :: 0 <= k < |oo| && Kept(pair, oo[k]) ==> Sep in oo[k].pair
  }

  /** The domain order of one exchange order: always Open. */
  function ToOrder(o: OpenOrder, parse: string -> Option<real>): (r: Order)
    requires Sep in o.pair
    ensures r.status == Open && r.id == o.id && r.orderedAt == o.createdAt
  {
    Order(o.id, o.orderType, ToCurrencyPair(o.pair), ToFloat(o.pendingAmount, 0.0, parse),
          ToFloatNullable(o.rate, None, parse), ToFloatNullable(o.stopLossRate, None, parse),
          Open, o.createdAt)
  }

  /** The converted orders that pass the filter, in exchange order. */
  function OpenOrdersOf(pair: Option<CurrencyPair>, oo: seq<OpenOrder>, parse: string -> Option<real>): (r: seq<Order>)
    requires Splittable(pair, oo)
    ensures |r| <= |oo|
  {
    if oo == [] then []
    else
      var init := oo[..|oo| - 1];
      var last := oo[|oo| - 1];
      assert forall k :: 0 <= k < |init| ==> init[k] == oo[k];
      OpenOrdersOf(pair, init, parse) + (if Kept(pair, last) then [ToOrder(last, parse)] else [])
  }

  /**
   * `GetOpenOrders`: the exchange's open orders for `pair` (or all of them
   * when `pair` is nil), converted and all marked Open; a failed request is
   * passed on.
   */
  method GetOpenOrders(pair: Option<CurrencyPair>, fetched: Result<seq<OpenOrder>>, parse: string -> Option<real>)
    returns (r: Result<seq<Order>>)
    requires fetched.Ok? ==> Splittable(pair, fetched.value)
    ensures fetched.Err? ==> r == Err(fetched.msg)
    ensures fetched.Ok? ==> r == Ok(OpenOrdersOf(pair, fetched.value, parse))
  {
    if fetched.Err? {
      return Err(fetched.msg);
    }
    var oo := fetched.value;
    var orders: seq<Order> := [];
    var i := 0;
    while i < |oo|
      invariant 0 <= i <= |oo|
      invariant Splittable(pair, oo[..i])
      invariant orders == OpenOrdersOf(pair, oo[..i], parse)
    {
      var o := oo[i];
      OpenOrdersOfStep(pair, oo, parse, i);
      if Kept(pair, o) {
        orders := orders + [ToOrder(o, parse)];
      }
      i := i + 1;
    }
    assert oo[..i] == oo;
    return Ok(orders);
  }

  /** One more exchange order converted, as the loop of `GetOpenOrders` does. */
  lemma OpenOrdersOfStep(pair: Option<CurrencyPair>, oo: seq<OpenOrder>, parse: string -> Option<real>, i: nat)
    requires Splittable(pair, oo) && i < |oo|
    ensures Splittable(pair, oo[..i]) && Splittable(pair, oo[..i + 1])
    ensures Kept(pair, oo[i]) ==> Sep in oo[i].pair
    ensures OpenOrdersOf(pair, oo[..i + 1], parse)
      == OpenOrdersOf(pair, oo[..i], parse) + (if Kept(pair, oo[i]) then [ToOrder(oo[i], parse)] else [])
  {
    assert oo[..i + 1][..i] == oo[..i];
  }

  /** Every order `GetOpenOrders` returns is Open, and comes from a kept exchange order. */
  lemma {:induction false} OpenOrdersAreKept(pair: Option<CurrencyPair>, oo: seq<OpenOrder>, parse: string -> Option<real>, k: nat)
    requires Splittable(pair, oo)
    requires k < |OpenOrdersOf(pair, oo, parse)|
    ensures OpenOrdersOf(pair, oo, parse)[k].status == Open
    ensures exists j :: 0 <= j < |oo| && Kept(pair, oo[j]) && OpenOrdersOf(pair, oo, parse)[k] == ToOrder(oo[j], parse)
  {
    var n := |oo| - 1;
    OpenOrdersOfStep(pair, oo, parse, n);
    assert oo[..n + 1] == oo;
    var front := OpenOrdersOf(pair, oo[..n], parse);
    if k < |front| {
      OpenOrdersAreKept(pair, oo[..n], parse, k);
      var j :| 0 <= j < n && Kept(pair, oo[..n][j]) && front[k] == ToOrder(oo[..n][j], parse);
      assert oo[..n][j] == oo[j];
    } else {
      assert OpenOrdersOf(pair, oo, parse)[k] == ToOrder(oo[n], parse);
    }
  }

  /** Every exchange order that passes the filter is among the results. */
  lemma {:induction false} KeptOrdersAreReturned(pair: Option<CurrencyPair>, oo: seq<OpenOrder>, parse: string -> Option<real>, j: nat)
    requires Splittable(pair, oo)
    requires j < |oo| && Kept(pair, oo[j])
    ensures ToOrder(oo[j], parse) in OpenOrdersOf(pair, oo, parse)
  {
    var n := |oo| - 1;
    OpenOrdersOfStep(pair, oo, parse, n);
    assert oo[..n + 1] == oo;
    var front := OpenOrdersOf(pair, oo[..n], parse);
    var back := if Kept(pair, oo[n]) then [ToOrder(oo[n], parse)] else [];
    assert OpenOrdersOf(pair, oo, parse) == front + back;
    if j < n {
      assert oo[..n][j] == oo[j];
      KeptOrdersAreReturned(pair, oo[..n], parse, j);
      assert ToOrder(oo[j], parse) in front;
    } else {
      assert back == [ToOrder(oo[j], parse)];
    }
  }

  /** With a filter whose parts hold no separator, every result carries exactly that pair. */
  lemma {:induction false} FilteredOrdersHavePair(p: CurrencyPair, oo: seq<OpenOrder>, parse: string -> Option<real>, k: nat)
    requires Sep !in p.key && Sep !in p.settlement
    requires Splittable(Some(p), oo)
    requires k < |OpenOrdersOf(Some(p), oo, parse)|
    ensures OpenOrdersOf(Some(p), oo, parse)[k].pair == p
  {
    OpenOrdersAreKept(Some(p), oo, parse, k);
    ToCurrencyPairInvertsString(p);
  }

  // ---------------------------------------------------------------------
  // GetContracts
  // ---------------------------------------------------------------------

  /** The increase and decrease sides picked out of a transaction's funds. */
  datatype FundSides = FundSides(
    increaseCurrency: CurrencyType, increaseAmount: real,
    decreaseCurrency: CurrencyType, decreaseAmount: real)

  /**
   * The funds loop: a value above zero sets the increase side and any
   * other value the decrease side, later entries overwriting earlier ones.
   */
  function SplitFunds(funds: seq<(string, string)>, parse: string -> Option<real>): FundSides
  {
    if funds == [] then FundSides("", 0.0, "", 0.0)
    else
      var s := SplitFunds(funds[..|funds| - 1], parse);
      var (k, v) := funds[|funds| - 1];
      var value := ToFloat(v, 0.0, parse);
      if value > 0.0 then s.(increaseCurrency := k, increaseAmount := value)
      else s.(decreaseCurrency := k, decreaseAmount := value)
  }

  /**
   * For the usual two-entry funds, one positive and one not, the positive
   * entry is the increase side and the other the decrease side, whichever
   * order the map is visited in.
   */
  lemma TwoFundsSplit(funds: seq<(string, string)>, parse: string -> Option<real>, up: nat)
    requires |funds| == 2 && up < 2
    requires ToFloat(funds[up].1, 0.0, parse) > 0.0
    requires ToFloat(funds[1 - up].1, 0.0, parse) <= 0.0
    ensures SplitFunds(funds, parse) == FundSides(funds[up].0, ToFloat(funds[up].1, 0.0, parse),
                                                 funds[1 - up].0, ToFloat(funds[1 - up].1, 0.0, parse))
  {
    assert funds[..1][..0] == [];
    assert funds[..1] == [funds[0]];
    assert funds[..2] == funds;
  }

  /** Maker for "M", Taker for anything else. */
  function LiquidityOf(s: string): (l: int)
    ensures l == Maker <==> s == "M"
    ensures l == Taker <==> s != "M"
  {
    if s == "M" then Maker else Taker
  }

  /** BuySide for "buy", SellSide for anything else. */
  function SideOf(s: string): (side: int)
    ensures side == BuySide <==> s == "buy"
    ensures side == SellSide <==> s != "buy"
  {
    if s == "buy" then BuySide else SellSide
  }

  /** The contract built from one transaction's fields and its funds split. */
  function ToContract(t: OrderTransaction, f: FundSides, parse: string -> Option<real>): (c: Contract)
    ensures c.id == t.id && c.orderId == t.orderId && c.feeCurrency == t.feeCurrency
    ensures c.rate == ToFloat(t.rate, 0.0, parse) && c.fee == ToFloat(t.fee, 0.0, parse)
    ensures c.side == BuySide <==> t.side == "buy"
    ensures c.liquidity == Maker <==> t.liquidity == "M"
    ensures c.increaseCurrency == f.increaseCurrency && c.increaseAmount == f.increaseAmount
    ensures c.decreaseCurrency == f.decreaseCurrency && c.decreaseAmount == f.decreaseAmount
  {
    Contract(t.id, t.orderId, ToFloat(t.rate, 0.0, parse),
             f.increaseCurrency, f.increaseAmount, f.decreaseCurrency, f.decreaseAmount,
             t.feeCurrency, ToFloat(t.fee, 0.0, parse), LiquidityOf(t.liquidity), SideOf(t.side))
  }

  /** The contracts of the transactions, or the error for the first one without exactly two funds. */
  function ContractsOf(tt: seq<OrderTransaction>, parse: string -> Option<real>): (r: Result<seq<Contract>>)
    ensures r.Ok? ==> |r.value| == |tt|
  {
    if tt == [] then Ok([])
    else
      var cs :- ContractsOf(tt[..|tt| - 1], parse);
      var t := tt[|tt| - 1];
      if |t.funds| != 2 then Err("transaction has not 2 funds")
      else Ok(cs + [ToContract(t, SplitFunds(t.funds, parse), parse)])
  }

  /** `GetContracts` fails exactly when some transaction does not have two funds. */
  lemma {:induction false} ContractsFailIffBadFunds(tt: seq<OrderTransaction>, parse: string -> Option<real>)
    ensures ContractsOf(tt, parse).Err? <==> exists k :: 0 <= k < |tt| && |tt[k].funds| != 2
  {
    if tt != [] {
      var init := tt[..|tt| - 1];
      assert forall k :: 0 <= k < |init| ==> init[k] == tt[k];
      ContractsFailIffBadFunds(init, parse);
      if exists k :: 0 <= k < |init| && |init[k].funds| != 2 {
        var k :| 0 <= k < |init| && |init[k].funds| != 2;
        assert |tt[k].funds| != 2;
      }
    }
  }

  /** On success, contract k is built from transaction k: same ID and order ID, in input order. */
  lemma {:induction false} ContractsFollowTransactions(tt: seq<OrderTransaction>, parse: string -> Option<real>, k: nat)
    requires ContractsOf(tt, parse).Ok? && k < |tt|
    ensures ContractsOf(tt, parse).value[k] == ToContract(tt[k], SplitFunds(tt[k].funds, parse), parse)
    ensures ContractsOf(tt, parse).value[k].id == tt[k].id
    ensures ContractsOf(tt, parse).value[k].orderId == tt[k].orderId
  {
    var init := tt[..|tt| - 1];
    if k < |init| {
      ContractsFollowTransactions(init, parse, k);
    }
  }

  /** The first failing transaction decides the error: later ones do not change it. */
  lemma {:induction false} ContractsErrorSticks(tt: seq<OrderTransaction>, n: nat, parse: string -> Option<real>)
    requires n <= |tt| && ContractsOf(tt[..n], parse).Err?
    ensures ContractsOf(tt, parse) == ContractsOf(tt[..n], parse)
    decreases |tt| - n
  {
    if n < |tt| {
      var init := tt[..|tt| - 1];
      assert init[..n] == tt[..n];
      ContractsErrorSticks(init, n, parse);
    } else {
      assert tt[..n] == tt;
    }
  }

  /**
   * `GetContracts`: one contract per transaction in order, or an error for a
   * transaction whose funds do not have exactly two entries; a failed
   * request is passed on.
   */
  method GetContracts(fetched: Result<seq<OrderTransaction>>, parse: string -> Option<real>)
    returns (r: Result<seq<Contract>>)
    ensures fetched.Err? ==> r == Err(fetched.msg)
    ensures fetched.Ok? ==> r == ContractsOf(fetched.value, parse)
  {
    if fetched.Err? {
      return Err(fetched.msg);
    }
    var tt := fetched.value;
    var cc: seq<Contract> := [];
    var i := 0;
    while i < |tt|
      invariant 0 <= i <= |tt|
      invariant ContractsOf(tt[..i], parse) == Ok(cc)
    {
      var t := tt[i];
      assert tt[..i + 1][..i] == tt[..i];
      if |t.funds| != 2 {
        ContractsErrorSticks(tt, i + 1, parse);
        return Err("transaction has not 2 funds");
      }
      var sides := FundSides("", 0.0, "", 0.0);
      var j := 0;
      while j < |t.funds|
        invariant 0 <= j <= |t.funds|
        invariant sides == SplitFunds(t.funds[..j], parse)
      {
        assert t.funds[..j + 1][..j] == t.funds[..j];
        var (k, v) := t.funds[j];
        var value := ToFloat(v, 0.0, parse);
        if value > 0.0 {
          sides := sides.(increaseCurrency := k, increaseAmount := value);
        } else {
          sides := sides.(decreaseCurrency := k, decreaseAmount := value);
        }
        j := j + 1;
      }
      assert t.funds[..j] == t.funds;
      cc := cc + [ToContract(t, sides, parse)];
      i := i + 1;
    }
    assert tt[..i] == tt;
    return Ok(cc);
  }

  // ---------------------------------------------------------------------
  // getCache
  // ---------------------------------------------------------------------

  /**
   * `getCache`: the trade cache for the pair's text and the side, nil unless
   * both levels of the nested map hold an entry.
   */
  function GetCache<C>(caches: map<string, map<int, C>>, p: CurrencyPair, side: int): (r: Option<C>)
    ensures r.Some? <==> PairString(p) in caches && side in caches[PairString(p)]
    ensures r.Some? ==> r.value == caches[PairString(p)][side]
  {
    var key := PairString(p);
    if key in caches && side in caches[key] then Some(caches[key][side]) else None
  }
}
