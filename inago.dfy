/**
 * The "inago" strategy (pkg/usecase/strategy/inago.go): a buy-volume surge
 * puts it on sell standby, a sell price under every contract rate takes it
 * off, and `Sell` fixes profit or cuts loss against the money spent.
 */
module Inago {
  import opened Wrappers
  import opened Model
  import opened StrategyCommon

  datatype InagoConfig = InagoConfig(
    interval: int,
    fundsRatio: real,
    lossCutLowerLimitPer: real,
    fixProfitUpperLimitPer: real,
    sellRocPeriod: int,
    buyIntervalSeconds: int,
    supportLinePeriod1: int,
    supportLinePeriod2: int,
    maxVolume: real,
    volumeCheckSeconds: int,
    averagingDownRatePer: real)

  /** The fields `valid` checks, in checking order. */
  const CheckedFields: seq<string> := [
    "Interval", "FundsRatio", "LossCutLowerLimitPer", "FixProfitUpperLimitPer",
    "SellROCPeriod", "BuyIntervalSeconds", "SupportLinePeriod1", "SupportLinePeriod2",
    "MaxVolume", "VolumeCheckSeconds", "AveragingDownRatePer"]

  /** Whether each checked field holds its zero value, in the same order. */
  function Empty(c: InagoConfig): (e: seq<bool>)
    ensures |e| == |CheckedFields|
  {
    [c.interval == 0, c.fundsRatio == 0.0, c.lossCutLowerLimitPer == 0.0, c.fixProfitUpperLimitPer == 0.0,
     c.sellRocPeriod == 0, c.buyIntervalSeconds == 0, c.supportLinePeriod1 == 0, c.supportLinePeriod2 == 0,
     c.maxVolume == 0.0, c.volumeCheckSeconds == 0, c.averagingDownRatePer == 0.0]
  }

  /**
   * `InagoConfig.valid`: an error exactly when a checked field is zero,
   * naming the first such field in checking order.
   */
  function Valid(c: InagoConfig): (r: Option<string>)
    ensures r.None? <==> forall k :: 0 <= k < |CheckedFields| ==> !Empty(c)[k]
    ensures r.Some? ==>
      exists k :: 0 <= k < |CheckedFields| && Empty(c)[k] && r.value == CheckedFields[k] + " is empty"
        && forall j :: 0 <= j < k ==> !Empty(c)[j]
  {
    FirstEmptyField(CheckedFields, Empty(c))
  }

  datatype SellDecision = FixProfit | LossCut | Hold

  /**
   * The decision of `Sell`: fix profit once the position is worth the fix
   * ratio of what was spent, else cut the loss once it is worth no more
   * than the loss-cut ratio, else hold.
   */
  function Decide(c: InagoConfig, sellJpy: real, buyJpy: real): (d: SellDecision)
    ensures d == FixProfit <==> sellJpy >= Scale(buyJpy, c.fixProfitUpperLimitPer)
    ensures d == LossCut <==> sellJpy < Scale(buyJpy, c.fixProfitUpperLimitPer) && sellJpy <= Scale(buyJpy, c.lossCutLowerLimitPer)
    ensures d == Hold <==> Scale(buyJpy, c.lossCutLowerLimitPer) < sellJpy < Scale(buyJpy, c.fixProfitUpperLimitPer)
  {
    if sellJpy >= Scale(buyJpy, c.fixProfitUpperLimitPer) then FixProfit
    else if sellJpy <= Scale(buyJpy, c.lossCutLowerLimitPer) then LossCut
    else Hold
  }

  /** The sell callback's early exit: the trade rate is at or above a contract rate. */
  function AtOrAbove(rate: real): real -> bool
  {
    contractRate => rate >= contractRate
  }

  /** Whether `Sell` gets as far as weighing the positions: all fetches answered and enough rates. */
  predicate Reaches(c: InagoConfig, positions: seq<Position>, f: Fetches, sellRate: Result<real>, rates: Result<seq<real>>)
  {
    |positions| > 0 && AllOk(f) && sellRate.Ok? && rates.Ok? && |rates.value| >= c.sellRocPeriod
  }

  /**
   * The averaging-down border: the ratio times the smallest of
   * `buyRate * 1000` and every contract rate.
   */
  function Border(buyRate: real, f: Fetches, ratio: real): real
    requires AllOk(f)
  {
    Scale(FoldMin(buyRate * 1000.0, ContractRates(f)), ratio)
  }

  class InagoStrategy {
    const config: InagoConfig
    var sellStandby: bool

    /** `NewInagoStrategy`: not on standby. */
    constructor (config: InagoConfig)
      ensures this.config == config && !sellStandby
    {
      this.config := config;
      sellStandby := false;
    }

    /**
     * `canAveragingDown`: false when the buy rate cannot be fetched; true
     * with no positions; otherwise true when the buy rate is below the
     * averaging-down ratio of the smallest of `buyRate * 1000` and every
     * contract rate. A failing contract fetch is an error.
     */
    method CanAveragingDown(buyRate: Result<real>, positions: seq<Position>, contractsOf: nat -> Result<seq<Contract>>)
      returns (r: Result<bool>)
      ensures buyRate.Err? ==> r == Ok(false)
      ensures buyRate.Ok? ==> (r.Err? <==> !AllOk(FetchAll(positions, contractsOf)))
      ensures buyRate.Ok? && r.Err? ==> FirstErrorIs(FetchAll(positions, contractsOf), r.msg)
      ensures buyRate.Ok? && AllOk(FetchAll(positions, contractsOf)) ==>
        r == Ok(|positions| == 0 || buyRate.value < Border(buyRate.value, FetchAll(positions, contractsOf), config.averagingDownRatePer))
    {
      if buyRate.Err? {
        return Ok(false);
      }
      var minRate := MinContractRate(buyRate.value * 1000.0, positions, contractsOf);
      if minRate.Err? {
        return Err(minRate.msg);
      }
      var borderRate := Scale(minRate.value, config.averagingDownRatePer);
      if |positions| == 0 {
        return Ok(true);
      }
      return Ok(buyRate.value < borderRate);
    }

    /**
     * `BuyTradeCallback`: with open positions, a buy volume above the
     * maximum puts the strategy on sell standby; nothing here clears it.
     */
    method BuyTradeCallback(volume: Result<real>, positions: Result<seq<Position>>) returns (r: Result<()>)
      modifies this
      ensures volume.Err? ==> r == Err(volume.msg) && sellStandby == old(sellStandby)
      ensures volume.Ok? && positions.Err? ==> r == Err(positions.msg) && sellStandby == old(sellStandby)
      ensures volume.Ok? && positions.Ok? ==>
        r == Ok(()) && sellStandby == (old(sellStandby) || (|positions.value| > 0 && volume.value > config.maxVolume))
    {
      if volume.Err? {
        return Err(volume.msg);
      }
      if positions.Err? {
        return Err(positions.msg);
      }
      if |positions.value| == 0 {
      } else if volume.value > config.maxVolume {
        sellStandby := true;
      }
      return Ok(());
    }

    /**
     * `SellTradeCallback`: with open positions, standby is released when the
     * scan of their contracts finds no rate at or below the trade rate.
     */
    method SellTradeCallback(rate: real, positions: Result<seq<Position>>, contractsOf: nat -> Result<seq<Contract>>)
      returns (r: Result<()>)
      modifies this
      ensures positions.Err? ==> r == Err(positions.msg) && sellStandby == old(sellStandby)
      ensures positions.Ok? && |positions.value| == 0 ==> r == Ok(()) && sellStandby == old(sellStandby)
      ensures positions.Ok? && |positions.value| > 0 ==>
        var scan := Scan(FetchAll(positions.value, contractsOf), AtOrAbove(rate));
        (r.Err? <==> scan.Err?) && (r.Err? ==> r.msg == scan.msg)
        && sellStandby == if scan == Ok(false) then false else old(sellStandby)
    {
      if positions.Err? {
        return Err(positions.msg);
      }
      if |positions.value| == 0 {
        return Ok(());
      }
      var scan := ScanContracts(positions.value, contractsOf, AtOrAbove(rate));
      if scan.Err? {
        return Err(scan.msg);
      }
      if scan.value {
        return Ok(());
      }
      if sellStandby {
        sellStandby := false;
      }
      return Ok(());
    }

    /**
     * `Sell`. With no positions, a failing fetch, or fewer rates than the
     * ROC period, nothing is decided. Otherwise the positions' worth at the
     * sell rate is weighed against the money spent: on hold, standby is set
     * when the positions are worth more than they cost; on fix-profit or
     * loss-cut every position is market-sold with its bought amount, and
     * standby is cleared once all the sells went through.
     */
    method Sell(positions: seq<Position>, contractsOf: nat -> Result<seq<Contract>>, sellRate: Result<real>,
                rates: Result<seq<real>>, send: (Position, real) -> Option<string>)
      returns (decision: Option<SellDecision>, sent: nat, r: Result<()>)
      modifies this
      ensures decision.None? ==> sent == 0 && sellStandby == old(sellStandby)
      ensures |positions| == 0 ==> decision.None? && r.Ok?
      ensures |positions| > 0 && !AllOk(FetchAll(positions, contractsOf)) ==>
        decision.None? && r.Err? && FirstErrorIs(FetchAll(positions, contractsOf), r.msg)
      ensures |positions| > 0 && AllOk(FetchAll(positions, contractsOf)) && sellRate.Err? ==>
        decision.None? && r == Err(sellRate.msg)
      ensures |positions| > 0 && AllOk(FetchAll(positions, contractsOf)) && sellRate.Ok? && rates.Err? ==>
        decision.None? && r == Err(rates.msg)
      ensures |positions| > 0 && AllOk(FetchAll(positions, contractsOf)) && sellRate.Ok? && rates.Ok? && |rates.value| < config.sellRocPeriod ==>
        decision.None? && r.Ok?
      ensures Reaches(config, positions, FetchAll(positions, contractsOf), sellRate, rates) ==>
        decision == Some(Decide(config, Worth(sellRate.value, FetchAll(positions, contractsOf)), TotalSpent(FetchAll(positions, contractsOf))))
      ensures Reaches(config, positions, FetchAll(positions, contractsOf), sellRate, rates) && decision == Some(Hold) ==>
        r.Ok? && sent == 0 && sellStandby == (old(sellStandby)
          || Worth(sellRate.value, FetchAll(positions, contractsOf)) > TotalSpent(FetchAll(positions, contractsOf)))
      ensures Reaches(config, positions, FetchAll(positions, contractsOf), sellRate, rates) && decision.Some? && decision != Some(Hold) ==>
        SentUntil(SellOrders(positions, Amounts(positions, FetchAll(positions, contractsOf))), send, sent, r)
        && sellStandby == if r.Ok? then false else old(sellStandby)
    {
      if |positions| == 0 {
        return None, 0, Ok(());
      }
      var totals := PositionTotals(positions, contractsOf);
      if totals.Err? {
        return None, 0, Err(totals.msg);
      }
      if sellRate.Err? {
        return None, 0, Err(sellRate.msg);
      }
      if rates.Err? {
        return None, 0, Err(rates.msg);
      }
      if |rates.value| < config.sellRocPeriod {
        return None, 0, Ok(());
      }
      var sellJpy := Scale(sellRate.value, totals.value.currencyAmount);
      var buyJpy := totals.value.buyJpy;
      var d := Decide(config, sellJpy, buyJpy);
      if d == Hold {
        if !sellStandby && sellJpy > buyJpy {
          sellStandby := true;
        }
        return Some(d), 0, Ok(());
      }
      sent, r := SendAll(SellOrders(positions, totals.value.amounts), send);
      if r.Err? {
        return Some(d), sent, r;
      }
      sellStandby := false;
      return Some(d), sent, Ok(());
    }

    /** `Wait`: the shared wait loop, with this strategy's interval and sell standby. */
    method Wait(cancelled: nat -> bool, waitErr: nat -> Option<string>) returns (ticks: nat, r: Result<()>)
      ensures ticks <= if config.interval < 0 then 0 else config.interval
      ensures forall c :: 0 <= c < ticks ==> !WaitStops(c, config.interval, sellStandby, cancelled, waitErr)
      ensures WaitStops(ticks, config.interval, sellStandby, cancelled, waitErr)
      ensures r.Err? <==> !cancelled(ticks) && !(sellStandby && ticks >= 1) && ticks < config.interval && waitErr(ticks).Some?
      ensures r.Err? ==> waitErr(ticks) == Some(r.msg)
    {
      ticks, r := StrategyCommon.Wait(config.interval, sellStandby, cancelled, waitErr);
    }
  }

  /**
   * With a positive averaging-down ratio, `canAveragingDown` holds for open
   * positions exactly when the buy rate is below the ratio times
   * `buyRate * 1000` and below the ratio times every contract rate.
   */
  lemma AveragingDownBelowEveryContract(c: InagoConfig, buyRate: real, f: Fetches)
    requires AllOk(f) && c.averagingDownRatePer > 0.0
    ensures buyRate < Border(buyRate, f, c.averagingDownRatePer) <==>
      buyRate < Scale(buyRate * 1000.0, c.averagingDownRatePer)
      && forall k, j :: 0 <= k < |f| && 0 <= j < |f[k].value| ==> buyRate < Scale(f[k].value[j].rate, c.averagingDownRatePer)
  {
    BelowScaledMin(buyRate * 1000.0, f, buyRate, c.averagingDownRatePer);
  }

  /**
   * The sell callback releases standby exactly when every contract of every
   * open position was fetched and lies above the trade rate.
   */
  lemma ReleaseIffBelowEveryContract(rate: real, f: Fetches)
    ensures Scan(f, AtOrAbove(rate)) == Ok(false) <==>
      AllOk(f) && forall k, j :: 0 <= k < |f| && 0 <= j < |f[k].value| ==> rate < f[k].value[j].rate
  {
    var r := Scan(f, AtOrAbove(rate));
    assert forall x :: AtOrAbove(rate)(x) == (rate >= x);
  }
}
