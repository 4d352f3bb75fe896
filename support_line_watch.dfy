/**
 * The support-line-watch strategy (pkg/usecase/strategy/support_line_watch.go):
 * a sell-volume surge puts it on buy standby, a buy price above every
 * contract rate takes it off, and `Sell` only ever cuts losses.
 */
module SupportLineWatch {
  import opened Wrappers
  import opened Model
  import opened StrategyCommon

  datatype SupportLineWatchConfig = SupportLineWatchConfig(
    interval: int,
    fundsRatio: real,
    lossCutLowerLimitPer: real,
    fixProfitUpperLimitPer: real,
    maxPositionCount: int,
    buyIntervalSeconds: int,
    supportLinePeriod1: int,
    supportLinePeriod2: int,
    maxVolume: real,
    volumeCheckSeconds: int)

  /** The fields `validate` checks, in checking order. */
  const CheckedFields: seq<string> := [
    "Interval", "FundsRatio", "LossCutLowerLimitPer", "FixProfitUpperLimitPer", "MaxPositionCount",
    "BuyIntervalSeconds", "SupportLinePeriod1", "SupportLinePeriod2", "MaxVolume", "VolumeCheckSeconds"]

  /** Whether each checked field holds its zero value, in the same order. */
  function Empty(c: SupportLineWatchConfig): (e: seq<bool>)
    ensures |e| == |CheckedFields|
  {
    [c.interval == 0, c.fundsRatio == 0.0, c.lossCutLowerLimitPer == 0.0, c.fixProfitUpperLimitPer == 0.0,
     c.maxPositionCount == 0, c.buyIntervalSeconds == 0, c.supportLinePeriod1 == 0, c.supportLinePeriod2 == 0,
     c.maxVolume == 0.0, c.volumeCheckSeconds == 0]
  }

  /**
   * `SupportLineWatchConfig.validate`: an error exactly when a checked
   * field is zero, naming the first such field in checking order.
   */
  function Validate(c: SupportLineWatchConfig): (r: Option<string>)
    ensures r.None? <==> forall k :: 0 <= k < |CheckedFields| ==> !Empty(c)[k]
    ensures r.Some? ==>
      exists k :: 0 <= k < |CheckedFields| && Empty(c)[k] && r.value == CheckedFields[k] + " is empty"
        && forall j :: 0 <= j < k ==> !Empty(c)[j]
  {
    FirstEmptyField(CheckedFields, Empty(c))
  }

  /** The smallest of `buyRate * 1000` and every contract rate. */
  function PositionMin(buyRate: real, f: Fetches): real
    requires AllOk(f)
  {
    FoldMin(buyRate * 1000.0, ContractRates(f))
  }

  /** The buy callback's early exit: the trade rate is at or below a contract rate. */
  function AtOrBelow(rate: real): real -> bool
  {
    contractRate => rate <= contractRate
  }

  /**
   * How far cancelling the settle orders of `ps` got: the first `done`
   * positions were cancelled into `newPs`, and `r` is the error of the
   * next one, if any.
   */
  predicate CancelledUntil(ps: seq<Position>, cancel: Position -> Result<Position>, newPs: seq<Position>, r: Result<()>)
  {
    |newPs| <= |ps|
    && (forall k :: 0 <= k < |newPs| ==> cancel(ps[k]) == Ok(newPs[k]))
    && (r.Ok? <==> |newPs| == |ps|)
    && (r.Err? ==> cancel(ps[|newPs|]) == Err(r.msg))
  }

  /** `CancelSettleOrder` for each position in turn, stopping at the first failure. */
  method CancelAll(ps: seq<Position>, cancel: Position -> Result<Position>) returns (newPs: seq<Position>, r: Result<()>)
    ensures CancelledUntil(ps, cancel, newPs, r)
  {
    newPs := [];
    while |newPs| < |ps|
      invariant |newPs| <= |ps|
      invariant forall k :: 0 <= k < |newPs| ==> cancel(ps[k]) == Ok(newPs[k])
    {
      var p := cancel(ps[|newPs|]);
      if p.Err? {
        return newPs, Err(p.msg);
      }
      newPs := newPs + [p.value];
    }
    return newPs, Ok(());
  }

  /** Whether `Sell` gets as far as weighing the positions: some positions, all fetches answered, a sell rate. */
  predicate Weighs(positions: seq<Position>, f: Fetches, sellRate: Result<real>)
  {
    |positions| > 0 && AllOk(f) && sellRate.Ok?
  }

  class SupportLineWatchStrategy {
    const config: SupportLineWatchConfig
    var buyStandby: bool

    /** `NewSupportLineWatchStrategy`: not on standby. */
    constructor (config: SupportLineWatchConfig)
      ensures this.config == config && !buyStandby
    {
      this.config := config;
      buyStandby := false;
    }

    /**
     * `canAveragingDown`: false when the buy rate cannot be fetched; true
     * with no positions; otherwise true when the buy rate is below the
     * smallest of `buyRate * 1000` and every contract rate. A failing
     * contract fetch is an error.
     */
    method CanAveragingDown(buyRate: Result<real>, positions: seq<Position>, contractsOf: nat -> Result<seq<Contract>>)
      returns (r: Result<bool>)
      ensures buyRate.Err? ==> r == Ok(false)
      ensures buyRate.Ok? ==> (r.Err? <==> !AllOk(FetchAll(positions, contractsOf)))
      ensures buyRate.Ok? && r.Err? ==> FirstErrorIs(FetchAll(positions, contractsOf), r.msg)
      ensures buyRate.Ok? && AllOk(FetchAll(positions, contractsOf)) ==>
        r == Ok(|positions| == 0 || buyRate.value < PositionMin(buyRate.value, FetchAll(positions, contractsOf)))
    {
      if buyRate.Err? {
        return Ok(false);
      }
      var minRate := MinContractRate(buyRate.value * 1000.0, positions, contractsOf);
      if minRate.Err? {
        return Err(minRate.msg);
      }
      if |positions| == 0 {
        return Ok(true);
      }
      return Ok(buyRate.value < minRate.value);
    }

    /**
     * `buy`, once its order has contracts: the strategy leaves buy standby.
     * Sending the order and polling for its contracts are not modelled.
     */
    method BuyFilled()
      modifies this
      ensures !buyStandby
    {
      buyStandby := false;
    }

    /**
     * `BuyTradeCallback`: standby is released when the scan of the open
     * positions' contracts finds no rate at or above the trade rate; with
     * no positions it is released too.
     */
    method BuyTradeCallback(rate: real, positions: Result<seq<Position>>, contractsOf: nat -> Result<seq<Contract>>)
      returns (r: Result<()>)
      modifies this
      ensures positions.Err? ==> r == Err(positions.msg) && buyStandby == old(buyStandby)
      ensures positions.Ok? ==>
        var scan := Scan(FetchAll(positions.value, contractsOf), AtOrBelow(rate));
        (r.Err? <==> scan.Err?) && (r.Err? ==> r.msg == scan.msg)
        && buyStandby == if scan == Ok(false) then false else old(buyStandby)
    {
      if positions.Err? {
        return Err(positions.msg);
      }
      var scan := ScanContracts(positions.value, contractsOf, AtOrBelow(rate));
      if scan.Err? {
        return Err(scan.msg);
      }
      if scan.value {
        return Ok(());
      }
      if buyStandby {
        buyStandby := false;
      }
      return Ok(());
    }

    /**
     * `SellTradeCallback`: unless the position count is at its maximum, a
     * sell volume above the maximum puts the strategy on buy standby;
     * nothing here clears it.
     */
    method SellTradeCallback(volume: Result<real>, positions: Result<seq<Position>>) returns (r: Result<()>)
      modifies this
      ensures volume.Err? ==> r == Err(volume.msg) && buyStandby == old(buyStandby)
      ensures volume.Ok? && positions.Err? ==> r == Err(positions.msg) && buyStandby == old(buyStandby)
      ensures volume.Ok? && positions.Ok? ==>
        r == Ok(())
        && buyStandby == (old(buyStandby) || (|positions.value| != config.maxPositionCount && volume.value > config.maxVolume))
    {
      if volume.Err? {
        return Err(volume.msg);
      }
      if positions.Err? {
        return Err(positions.msg);
      }
      if |positions.value| == config.maxPositionCount {
      } else if volume.value > config.maxVolume {
        buyStandby := true;
      }
      return Ok(());
    }

    /**
     * `Sell`. With no positions or a failing fetch nothing is decided.
     * Otherwise the loss is cut once the positions are worth no more than
     * the loss-cut ratio of what they cost: every settle order is
     * cancelled, then every cancelled position is market-sold with the
     * amount bought under its id. The standby flag is not touched.
     */
    method Sell(positions: seq<Position>, contractsOf: nat -> Result<seq<Contract>>, sellRate: Result<real>,
                cancel: Position -> Result<Position>, send: (Position, real) -> Option<string>)
      returns (lossCut: bool, cancelled: seq<Position>, sent: nat, r: Result<()>)
      ensures !lossCut ==> cancelled == [] && sent == 0
      ensures |positions| == 0 ==> !lossCut && r.Ok?
      ensures |positions| > 0 && !AllOk(FetchAll(positions, contractsOf)) ==>
        !lossCut && r.Err? && FirstErrorIs(FetchAll(positions, contractsOf), r.msg)
      ensures |positions| > 0 && AllOk(FetchAll(positions, contractsOf)) && sellRate.Err? ==>
        !lossCut && r == Err(sellRate.msg)
      ensures Weighs(positions, FetchAll(positions, contractsOf), sellRate) ==>
        lossCut == (Worth(sellRate.value, FetchAll(positions, contractsOf))
                      <= Scale(TotalSpent(FetchAll(positions, contractsOf)), config.lossCutLowerLimitPer))
      ensures Weighs(positions, FetchAll(positions, contractsOf), sellRate) && !lossCut ==> r.Ok?
      ensures lossCut && |cancelled| < |positions| ==>
        CancelledUntil(positions, cancel, cancelled, r) && sent == 0
      ensures lossCut && |cancelled| == |positions| ==>
        CancelledUntil(positions, cancel, cancelled, Ok(()))
        && SentUntil(SellOrders(cancelled, Amounts(positions, FetchAll(positions, contractsOf))), send, sent, r)
    {
      if |positions| == 0 {
        return false, [], 0, Ok(());
      }
      var totals := PositionTotals(positions, contractsOf);
      if totals.Err? {
        return false, [], 0, Err(totals.msg);
      }
      if sellRate.Err? {
        return false, [], 0, Err(sellRate.msg);
      }
      var sellJpy := Scale(sellRate.value, totals.value.currencyAmount);
      var losscutLimit := Scale(totals.value.buyJpy, config.lossCutLowerLimitPer);
      if !(sellJpy <= losscutLimit) {
        return false, [], 0, Ok(());
      }
      lossCut := true;
      var c;
      cancelled, c := CancelAll(positions, cancel);
      if c.Err? {
        return lossCut, cancelled, 0, c;
      }
      sent, r := SendAll(SellOrders(cancelled, totals.value.amounts), send);
    }

    /** `Wait`: the shared wait loop, with this strategy's interval and buy standby. */
    method Wait(cancelled: nat -> bool, waitErr: nat -> Option<string>) returns (ticks: nat, r: Result<()>)
      ensures ticks <= if config.interval < 0 then 0 else config.interval
      ensures forall c :: 0 <= c < ticks ==> !WaitStops(c, config.interval, buyStandby, cancelled, waitErr)
      ensures WaitStops(ticks, config.interval, buyStandby, cancelled, waitErr)
      ensures r.Err? <==> !cancelled(ticks) && !(buyStandby && ticks >= 1) && ticks < config.interval && waitErr(ticks).Some?
      ensures r.Err? ==> waitErr(ticks) == Some(r.msg)
    {
      ticks, r := StrategyCommon.Wait(config.interval, buyStandby, cancelled, waitErr);
    }
  }

  /**
   * With open positions, `canAveragingDown` holds exactly when the buy rate
   * is below `buyRate * 1000` and below every contract rate.
   */
  lemma AveragingDownBelowEveryContract(buyRate: real, f: Fetches)
    requires AllOk(f)
    ensures buyRate < PositionMin(buyRate, f) <==>
      buyRate < buyRate * 1000.0
      && forall k, j :: 0 <= k < |f| && 0 <= j < |f[k].value| ==> buyRate < f[k].value[j].rate
  {
    BelowScaledMin(buyRate * 1000.0, f, buyRate, 1.0);
    assert forall y :: Scale(y, 1.0) == y;
  }

  /**
   * The buy callback releases standby exactly when every contract of every
   * open position was fetched and lies below the trade rate.
   */
  lemma ReleaseIffAboveEveryContract(rate: real, f: Fetches)
    ensures Scan(f, AtOrBelow(rate)) == Ok(false) <==>
      AllOk(f) && forall k, j :: 0 <= k < |f| && 0 <= j < |f[k].value| ==> f[k].value[j].rate < rate
  {
    assert forall x :: AtOrBelow(rate)(x) == (rate <= x);
  }
}
