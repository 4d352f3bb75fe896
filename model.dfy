/**
 * The domain model of the trading bot (pkg/domain/model): currency pairs and
 * their textual form, balances, orders, contracts and positions, and the
 * enumerations every other module speaks in.
 */
module Model {
  import opened Wrappers

  // ---------------------------------------------------------------------
  // Enumerations (const.go). Go declares the numeric ones as plain ints,
  // so any other value can occur; they stay `int` here.
  // ---------------------------------------------------------------------

  type CurrencyType = string
  type OrderType = string

  const Buy: OrderType := "buy"
  const Sell: OrderType := "sell"
  const MarketBuy: OrderType := "market_buy"
  const MarketSell: OrderType := "market_sell"

  const JPY: CurrencyType := "jpy"
  const BTC: CurrencyType := "btc"
  const FCT: CurrencyType := "fct"
  const ETC: CurrencyType := "etc"
  const MONA: CurrencyType := "mona"

  const Taker: int := 0
  const Maker: int := 1

  const Open: int := 0
  const Closed: int := 1
  const Canceled: int := 2

  const BuySide: int := 0
  const SellSide: int := 1

  // ---------------------------------------------------------------------
  // Currency pairs and `strings.Split(s, "_")`
  // ---------------------------------------------------------------------

  datatype CurrencyPair = CurrencyPair(key: CurrencyType, settlement: CurrencyType)

  const MonaJpy := CurrencyPair(MONA, JPY)
  const BtcJpy := CurrencyPair(BTC, JPY)

  const Sep: char := '_'

  /** Number of separators in `s`. */
  function SepCount(s: string): nat
  {
    if s == [] then 0 else (if s[0] == Sep then 1 else 0) + SepCount(s[1..])
  }

  /** Index of the first separator of `s`. */
  function FirstSep(s: string): (i: nat)
    requires Sep in s
    ensures i < |s| && s[i] == Sep && Sep !in s[..i]
  {
    if s[0] == Sep then 0
    else
      assert Sep in s[1..] by { var k :| 0 <= k < |s| && s[k] == Sep; assert s[1..][k - 1] == Sep; }
      var j := FirstSep(s[1..]);
      assert s[..j + 1] == [s[0]] + s[1..][..j];
      j + 1
  }

  /** Joins non-empty `parts` with the separator: the inverse of Split. */
  function Join(parts: seq<string>): string
    requires |parts| >= 1
  {
    if |parts| == 1 then parts[0] else parts[0] + [Sep] + Join(parts[1..])
  }

  /**
   * Go's `strings.Split(s, "_")`: the maximal separator-free pieces of `s`,
   * one more than there are separators, which join back to `s`.
   */
  function Split(s: string): (parts: seq<string>)
    ensures |parts| == SepCount(s) + 1
    ensures forall i :: 0 <= i < |parts| ==> Sep !in parts[i]
    ensures Join(parts) == s
    decreases |s|
  {
    if Sep !in s then
      SepCountNone(s);
      [s]
    else
      var i := FirstSep(s);
      var rest := Split(s[i + 1..]);
      SepCountSplit(s, i);
      assert s == s[..i] + [Sep] + s[i + 1..];
      [s[..i]] + rest
  }

  lemma {:induction false} SepCountNone(s: string)
    requires Sep !in s
    ensures SepCount(s) == 0
  {
    if s != [] {
      assert forall k :: 0 <= k < |s[1..]| ==> s[1..][k] == s[k + 1];
      SepCountNone(s[1..]);
    }
  }

  lemma {:induction false} SepCountAppend(a: string, b: string)
    ensures SepCount(a + b) == SepCount(a) + SepCount(b)
  {
    if a != [] {
      assert (a + b)[1..] == a[1..] + b;
      SepCountAppend(a[1..], b);
    } else {
      assert a + b == b;
    }
  }

  lemma SepCountSplit(s: string, i: nat)
    requires i < |s| && s[i] == Sep && Sep !in s[..i]
    ensures SepCount(s) == SepCount(s[i + 1..]) + 1
  {
    assert s == s[..i] + ([Sep] + s[i + 1..]);
    SepCountAppend(s[..i], [Sep] + s[i + 1..]);
    SepCountNone(s[..i]);
    assert ([Sep] + s[i + 1..])[1..] == s[i + 1..];
  }

  /** Splitting `a_rest` with a separator-free `a` yields `a` then the pieces of `rest`. */
  lemma SplitCons(a: string, rest: string)
    requires Sep !in a
    ensures Split(a + [Sep] + rest) == [a] + Split(rest)
  {
    var s := a + [Sep] + rest;
    assert s[|a|] == Sep;
    assert s[..|a|] == a;
    var i := FirstSep(s);
    assert forall k :: 0 <= k < |a| ==> s[k] == a[k];
    assert i == |a|;
    assert s[i + 1..] == rest;
  }

  /** `CurrencyPair.String()`: `Key + "_" + Settlement`. */
  function PairString(p: CurrencyPair): string
  {
    p.key + [Sep] + p.settlement
  }

  /**
   * `ParseToCurrencyPair`: fails unless the text has exactly one separator;
   * otherwise the key is the text before it and the settlement the text after.
   */
  function ParseToCurrencyPair(s: string): (r: Result<CurrencyPair>)
    ensures r.Ok? <==> SepCount(s) == 1
    ensures r.Ok? ==> Sep !in r.value.key && Sep !in r.value.settlement
    ensures r.Ok? ==> PairString(r.value) == s
  {
    var parts := Split(s);
    if |parts| != 2 then Err("failed to parse string to CurrencyPair, string: " + s)
    else
      assert parts[1..] == [parts[1]];
      Ok(CurrencyPair(parts[0], parts[1]))
  }

  /** Printing then parsing gives the pair back when neither part holds a separator. */
  lemma ParsePrintRoundTrip(p: CurrencyPair)
    requires Sep !in p.key && Sep !in p.settlement
    ensures ParseToCurrencyPair(PairString(p)) == Ok(p)
  {
    SplitCons(p.key, p.settlement);
    SepCountNone(p.settlement);
    assert Split(p.settlement) == [p.settlement] by { SepCountNone(p.settlement); }
  }

  /** A pair whose key holds a separator is printed as text that does not parse. */
  lemma PrintedUnderscoreKeyFails(p: CurrencyPair)
    requires Sep in p.key
    ensures ParseToCurrencyPair(PairString(p)).Err?
  {
    var k :| 0 <= k < |p.key| && p.key[k] == Sep;
    assert p.key == p.key[..k] + [Sep] + p.key[k + 1..];
    SepCountAppend(p.key[..k] + [Sep], p.key[k + 1..]);
    SepCountAppend(p.key[..k], [Sep]);
    SepCountAppend(p.key, [Sep] + p.settlement);
    SepCountAppend([Sep], p.settlement);
    assert PairString(p) == p.key + ([Sep] + p.settlement);
  }

  // ---------------------------------------------------------------------
  // Balances, orders, contracts, positions
  // ---------------------------------------------------------------------

  datatype Balance = Balance(currency: CurrencyType, amount: real, reserved: real)

  /** `Balance.Total`: what is free plus what is reserved. */
  function Total(b: Balance): (t: real)
    ensures t - b.reserved == b.amount
  {
    b.amount + b.reserved
  }

  /** A rate of the exchange's store (`StoreRate`). */
  datatype StoreRate = StoreRate(pair: CurrencyPair, rate: real)

  /** A rate of the exchange's order book for one side (`OrderRate`). */
  datatype OrderRate = OrderRate(pair: CurrencyPair, side: int, rate: real)

  /** An order to be posted (Go's `model.NewOrder`); nil pointers are `None`. */
  datatype OrderRequest = OrderRequest(
    orderType: OrderType,
    pair: CurrencyPair,
    amount: Option<real>,
    rate: Option<real>,
    marketBuyAmount: Option<real>,
    stopLossRate: Option<real>)

  /** An order as the rest of the bot sees it; a nil rate is `None`. */
  datatype Order = Order(
    id: nat,
    orderType: OrderType,
    pair: CurrencyPair,
    amount: real,
    rate: Option<real>,
    stopLossRate: Option<real>,
    status: int,
    orderedAt: int)

  datatype Contract = Contract(
    id: nat,
    orderId: nat,
    rate: real,
    increaseCurrency: CurrencyType,
    increaseAmount: real,
    decreaseCurrency: CurrencyType,
    decreaseAmount: real,
    feeCurrency: CurrencyType,
    fee: real,
    liquidity: int,
    side: int)

  datatype Position = Position(id: nat, opener: Order, closer: Option<Order>)

  // Labels printed by Order.String and Contract.String.

  function StatusLabel(status: int): (l: string)
    ensures l == "open" <==> status == Open
    ensures l == "closed" <==> status == Closed
    ensures l == "canceled" <==> status == Canceled
    ensures l == "-" <==> status !in {Open, Closed, Canceled}
  {
    match status
    case 0 => "open"
    case 1 => "closed"
    case 2 => "canceled"
    case _ => "-"
  }

  /** A rate printed with `fmtFloat` (Go's `%f`), or "-" when it is nil. */
  function OptRateLabel(r: Option<real>, fmtFloat: real -> string): (l: string)
    ensures r.None? ==> l == "-"
    ensures r.Some? ==> l == fmtFloat(r.value)
  {
    if r.Some? then fmtFloat(r.value) else "-"
  }

  function LiquidityLabel(liquidity: int): (l: string)
    ensures l == "Taker" <==> liquidity == Taker
    ensures l == "Maker" <==> liquidity == Maker
    ensures l == "-" <==> liquidity !in {Taker, Maker}
  {
    match liquidity
    case 0 => "Taker"
    case 1 => "Maker"
    case _ => "-"
  }

  function SideLabel(side: int): (l: string)
    ensures l == "buy" <==> side == BuySide
    ensures l == "sell" <==> side == SellSide
    ensures l == "-" <==> side !in {BuySide, SellSide}
  {
    match side
    case 0 => "buy"
    case 1 => "sell"
    case _ => "-"
  }

  /**
   * `Order.String`. Go's `%d` and `%f` are the parameters `fmtId` and
   * `fmtFloat`; the text ends with the status label.
   */
  function OrderString(o: Order, fmtId: nat -> string, fmtFloat: real -> string): (r: string)
    ensures |r| > |StatusLabel(o.status)| && r[|r| - |StatusLabel(o.status)| - 1..] == StatusLabel(o.status) + "]"
  {
    "order[id:" + fmtId(o.id) + " " + o.orderType + " " + PairString(o.pair)
      + " amout:" + fmtFloat(o.amount)
      + " rate:" + OptRateLabel(o.rate, fmtFloat)
      + " stop_loss_rate:" + OptRateLabel(o.stopLossRate, fmtFloat)
      + " status:" + StatusLabel(o.status) + "]"
  }

  /** `Contract.String`; it ends with the liquidity and side labels. */
  function ContractString(c: Contract, fmtId: nat -> string, fmtFloat: real -> string): (r: string)
    ensures |r| > |SideLabel(c.side)| && r[|r| - |SideLabel(c.side)| - 1..] == SideLabel(c.side) + "]"
  {
    "contract[id:" + fmtId(c.id) + " order_id:" + fmtId(c.orderId)
      + " rate: " + fmtFloat(c.rate)
      + " " + c.increaseCurrency + ":" + fmtFloat(c.increaseAmount)
      + " " + c.decreaseCurrency + ":" + fmtFloat(c.decreaseAmount)
      + " fee:" + fmtFloat(c.fee)
      + " " + LiquidityLabel(c.liquidity) + " " + SideLabel(c.side) + "]"
  }
}
