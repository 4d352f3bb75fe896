/**
 * Rows of the MySQL store (pkg/infrastructure/mysql/model.go) and their
 * mapping to and from the domain model. Order types are stored as small
 * integers and pairs as their printed text.
 */
module MysqlModel {
  import opened Wrappers
  import opened Model

  datatype DbOrder = DbOrder(
    id: nat,
    orderType: int,
    pair: string,
    amount: real,
    rate: Option<real>,
    stopLossRate: Option<real>,
    status: int)

  datatype DbContract = DbContract(
    id: nat,
    orderId: nat,
    rate: real,
    side: int,
    increaseCurrency: string,
    increaseAmount: real,
    decreaseCurrency: string,
    decreaseAmount: real,
    feeCurrency: string,
    feeAmount: real,
    liquidity: int)

  predicate KnownOrderType(t: OrderType)
  {
    t == Buy || t == Sell || t == MarketBuy || t == MarketSell
  }

  /** The stored code of an order type; a type outside the four known ones is stored as 0. */
  function OrderTypeCode(t: OrderType): (c: int)
    ensures 0 <= c <= 3
    ensures c == 1 <==> t == Sell
    ensures c == 2 <==> t == MarketBuy
    ensures c == 3 <==> t == MarketSell
    ensures c == 0 <==> !KnownOrderType(t) || t == Buy
  {
    if t == Buy then 0
    else if t == Sell then 1
    else if t == MarketBuy then 2
    else if t == MarketSell then 3
    else 0
  }

  /** The order type of a stored code; any code outside 0..3 gives the empty type. */
  function OrderTypeOfCode(c: int): (t: OrderType)
    ensures 0 <= c <= 3 <==> KnownOrderType(t)
    ensures !(0 <= c <= 3) ==> t == ""
  {
    match c
    case 0 => Buy
    case 1 => Sell
    case 2 => MarketBuy
    case 3 => MarketSell
    case _ => ""
  }

  lemma TypeCodeRoundTrip(t: OrderType)
    requires KnownOrderType(t)
    ensures OrderTypeOfCode(OrderTypeCode(t)) == t
  {
  }

  lemma CodeTypeRoundTrip(c: int)
    requires 0 <= c <= 3
    ensures OrderTypeCode(OrderTypeOfCode(c)) == c
  {
  }

  /**
   * `NewOrder`: the row for `org` stored with status `status` (the argument,
   * not the order's own status).
   */
  function NewOrder(org: Order, status: int): (d: DbOrder)
    ensures d.status == status
    ensures OrderTypeOfCode(d.orderType) == (if KnownOrderType(org.orderType) then org.orderType else Buy)
    ensures d.id == org.id && d.amount == org.amount
    ensures d.rate == org.rate && d.stopLossRate == org.stopLossRate
    ensures d.pair == PairString(org.pair)
  {
    DbOrder(org.id, OrderTypeCode(org.orderType), PairString(org.pair), org.amount,
            org.rate, org.stopLossRate, status)
  }

  /**
   * `Order.ToDomainModel`: fails exactly when the stored pair does not parse;
   * otherwise the domain order carries the stored fields, and its creation
   * time is left at its zero value.
   */
  function ToDomainModel(d: DbOrder): (r: Result<Order>)
    ensures r.Err? <==> SepCount(d.pair) != 1
    ensures r.Ok? ==> PairString(r.value.pair) == d.pair
    ensures r.Ok? ==> r.value.id == d.id && r.value.amount == d.amount && r.value.status == d.status
    ensures r.Ok? ==> r.value.rate == d.rate && r.value.stopLossRate == d.stopLossRate
  {
    var pair :- ParseToCurrencyPair(d.pair);
    Ok(Order(d.id, OrderTypeOfCode(d.orderType), pair, d.amount, d.rate, d.stopLossRate, d.status, 0))
  }

  /**
   * Storing an order and reading it back gives the same order with the
   * stored status and a zero creation time, provided its pair parts hold no
   * separator and its type is one of the four known ones.
   */
  lemma StoreLoadRoundTrip(o: Order, status: int)
    requires Sep !in o.pair.key && Sep !in o.pair.settlement
    requires KnownOrderType(o.orderType)
    ensures ToDomainModel(NewOrder(o, status)) == Ok(o.(status := status, orderedAt := 0))
  {
    ParsePrintRoundTrip(o.pair);
    TypeCodeRoundTrip(o.orderType);
  }

  /** An order of an unknown type is read back as a limit buy. */
  lemma UnknownTypeLoadsAsBuy(o: Order, status: int)
    requires Sep !in o.pair.key && Sep !in o.pair.settlement
    requires !KnownOrderType(o.orderType)
    ensures ToDomainModel(NewOrder(o, status)).Ok?
    ensures ToDomainModel(NewOrder(o, status)).value.orderType == Buy
  {
    ParsePrintRoundTrip(o.pair);
  }

  /** `NewContract`: every field copied, the fee into FeeAmount. */
  function NewContract(c: Contract): (d: DbContract)
    ensures d.id == c.id && d.orderId == c.orderId && d.rate == c.rate
    ensures d.side == c.side && d.liquidity == c.liquidity && d.feeAmount == c.fee
    ensures d.increaseCurrency == c.increaseCurrency && d.increaseAmount == c.increaseAmount
    ensures d.decreaseCurrency == c.decreaseCurrency && d.decreaseAmount == c.decreaseAmount
    ensures d.feeCurrency == c.feeCurrency
  {
    DbContract(c.id, c.orderId, c.rate, c.side, c.increaseCurrency, c.increaseAmount,
               c.decreaseCurrency, c.decreaseAmount, c.feeCurrency, c.fee, c.liquidity)
  }
}
