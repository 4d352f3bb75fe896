# trading-bot core in Dafny

A model of the decision and bookkeeping logic of a cryptocurrency trading bot
written in Go (with a JavaScript chart page). The bot trades one currency pair,
here chiefly MONA/JPY or BTC/JPY, on the Coincheck exchange, stores orders and
contracts in MySQL, and back-tests strategies against an in-memory exchange.
The model covers these parts:

- **Domain model** (`model.dfy`): currency pairs and their `key_settlement` text, and balances. It also covers orders, contracts, positions and the labels their `String` methods print.
- **MySQL row mapping** (`mysql_model.dfy`): order types stored as codes 0..3 and pairs as text, with the store/load round trip.
- **Coincheck conversions** (`coincheck_util.dfy`, `coincheck_client.dfy`): parse-with-default, request-string truncation and pair splitting. This part also covers the mapping of exchange responses to balances, open orders and contracts, and the trade-cache lookup.
- **In-memory exchange** (`memory_exchange.dfy`): a class over a fixed rate table, the posted orders and the contracts. It posts orders with consecutive ids, fills them by the limit and stop-loss rules, and advances one step at a time.
- **In-memory rate history** (`memory_rates.dfy`): one bounded FIFO of rates per order side.
- **Argmin/argmax** (`trade_util.dfy`): the first index of the smallest or largest rate.
- **Strategies** (`strategy_common.dfy`, `inago.dfy`, `support_line_watch.dfy`):
  - the "inago" and "support line watch" strategies with their configuration checks and the support line through two window minima;
  - the averaging-down and order-interval checks, the per-position totals and the sell/loss-cut decisions;
  - the standby flags flipped by the trade callbacks, and the bounded wait loop.
  The rules the two strategies share line for line are defined once.
- **Genetic-algorithm operators** (`ga_simulator.dfy`): the operators of the parameter search, with each `rand.Intn` draw passed in as a number. They are gene to configuration, random and initial individuals, rank-weighted choice, crossover, mutation and the stable profit sort.
- **Fetcher** (`fetch.dfy`): it saves the current rate, upserts the contracts of registered open orders, and closes registered orders that the exchange no longer lists.
- **Chart rows** (`chart.dfy`): the header and one row per market tick. Each row holds the time, the sell rate, a marker for the buy and sell events in the tick's window, the support line and the pending sell rate.

Facade and exchange calls, the repository's answers, the clock and random draws
are all parameters. Go's float parsing and formatting are function-typed
parameters. Rates and amounts are `real`.

The chart page draws the sell rate, the buy and sell markers and one support line per tick. Its rows have 4 cells, or 5 while a sell order is pending. The model follows the code.

## Model

| member | source | states |
|---|---|---|
| Model.Split | pkg/domain/model/models.go:23 | `strings.Split` on `_`: one more piece than there are separators, no piece holds a separator, and joining the pieces gives the text back |
| Model.ParseToCurrencyPair | pkg/domain/model/models.go:22-32 | succeeds exactly when the text has one separator; the parts hold no separator and print back to the text |
| Model.ParsePrintRoundTrip | pkg/domain/model/models.go:22-37 | parsing the printed pair gives the pair back when neither part holds `_` |
| Model.PrintedUnderscoreKeyFails | pkg/domain/model/models.go:22-37 | a key holding `_` prints as text that fails to parse, so the round trip needs the separator-free precondition |
| Model.Total | pkg/domain/model/models.go:63-65 | total minus reserved is the free amount |
| Model.StatusLabel | pkg/domain/model/models.go:104-112 | open, closed or canceled for each known status, and "-" exactly for every other value |
| Model.OptRateLabel | pkg/domain/model/models.go:94-102 | a nil rate prints "-", and a set rate prints in the float format |
| Model.LiquidityLabel | pkg/domain/model/models.go:135-141 | Taker for 0, Maker for 1, "-" exactly otherwise |
| Model.SideLabel | pkg/domain/model/models.go:143-149 | buy for 0, sell for 1, "-" exactly otherwise |
| Model.OrderString | pkg/domain/model/models.go:93-114 | the text ends with the status label and the closing bracket |
| Model.ContractString | pkg/domain/model/models.go:134-162 | the text ends with the side label and the closing bracket |
| MysqlModel.OrderTypeCode | pkg/infrastructure/mysql/model.go:18-29 | sell, market_buy and market_sell have codes 1, 2 and 3; buy and every unknown type have code 0 |
| MysqlModel.OrderTypeOfCode | pkg/infrastructure/mysql/model.go:48-58 | codes 0..3 give exactly the four known types; any other code gives the empty type |
| MysqlModel.TypeCodeRoundTrip | pkg/infrastructure/mysql/model.go:18-29 | a known type survives encoding and decoding |
| MysqlModel.CodeTypeRoundTrip | pkg/infrastructure/mysql/model.go:48-58 | a code in 0..3 survives decoding and encoding |
| MysqlModel.NewOrder | pkg/infrastructure/mysql/model.go:17-39 | the row stores the status argument rather than the order's own status; id, amount and rates are copied; the type reads back as itself, or as buy when unknown; the pair is stored as its `key_settlement` text |
| MysqlModel.ToDomainModel | pkg/infrastructure/mysql/model.go:42-69 | fails exactly when the stored pair does not parse; otherwise the stored fields are carried over and the pair prints as the stored text |
| MysqlModel.StoreLoadRoundTrip | pkg/infrastructure/mysql/model.go:17-69 | storing and loading gives the order back, with the stored status and a zero creation time, for known types and separator-free pairs |
| MysqlModel.UnknownTypeLoadsAsBuy | pkg/infrastructure/mysql/model.go:18-29 | an order of an unknown type comes back as a limit buy |
| MysqlModel.NewContract | pkg/infrastructure/mysql/model.go:87-101 | every field is copied, with the fee going to FeeAmount |
| CoincheckUtil.ToFloat | pkg/infrastructure/coincheck/util.go:103-108 | the parsed value, or the default exactly when parsing fails |
| CoincheckUtil.ToFloatNullable | pkg/infrastructure/coincheck/util.go:110-115 | the parsed value, or the (possibly nil) default when parsing fails |
| CoincheckUtil.Trunc | pkg/infrastructure/coincheck/util.go:122 | Go's `int(x)` truncates toward zero: the result lies within one of `x`, on the side of zero |
| CoincheckUtil.ToRequestString | pkg/infrastructure/coincheck/util.go:117-133 | nil gives ""; an integer part of 5 or more characters is returned as it is; otherwise the result is the `%.5f` text cut to a prefix of at most 6 characters |
| CoincheckUtil.SepIndexFinds | pkg/infrastructure/coincheck/util.go:136 | the scan stops at the first separator, or at the end when there is none |
| CoincheckUtil.ToCurrencyPair | pkg/infrastructure/coincheck/util.go:135-141 | both parts are free of the separator and, with one separator between them, fit in the text; `ToCurrencyPairIsSplit`, `ToCurrencyPairShape`, `ToCurrencyPairInvertsString`, `ToCurrencyPairAgreesWithParse` and `ToCurrencyPairDropsExtraPieces` state the rest |
| CoincheckUtil.ToCurrencyPairIsSplit | pkg/infrastructure/coincheck/util.go:135-141 | the pair is pieces 0 and 1 of `strings.Split` |
| CoincheckUtil.ToCurrencyPairShape | pkg/infrastructure/coincheck/util.go:135-141 | both parts are separator-free; the key plus `_` starts the text and the settlement follows it |
| CoincheckUtil.ToCurrencyPairInvertsString | pkg/infrastructure/coincheck/util.go:135-141 | inverts `CurrencyPair.String` for separator-free parts |
| CoincheckUtil.ToCurrencyPairAgreesWithParse | pkg/infrastructure/coincheck/util.go:135-141 | wherever `ParseToCurrencyPair` succeeds, both give the same pair |
| CoincheckUtil.ToCurrencyPairDropsExtraPieces | pkg/infrastructure/coincheck/util.go:135-141 | `a_b_c` gives the pair (a, b): later pieces are ignored |
| CoincheckClient.GetBalance | pkg/infrastructure/coincheck/client.go:58-98 | succeeds exactly for jpy, btc, etc, fct and mona on a successful request; each maps to its own amount and reserved fields, parsed with default 0 |
| CoincheckClient.ToOrder | pkg/infrastructure/coincheck/client.go:112-121 | a converted order is Open and keeps the exchange's id and creation time |
| CoincheckClient.GetOpenOrders | pkg/infrastructure/coincheck/client.go:101-124 | the loop computes the filtered conversion `OpenOrdersOf`; a failed request is passed on |
| CoincheckClient.OpenOrdersAreKept | pkg/infrastructure/coincheck/client.go:108-121 | every returned order is Open and converted from an exchange order that passes the pair filter |
| CoincheckClient.KeptOrdersAreReturned | pkg/infrastructure/coincheck/client.go:108-121 | every exchange order passing the filter is returned |
| CoincheckClient.FilteredOrdersHavePair | pkg/infrastructure/coincheck/client.go:108-121 | with a separator-free filter pair, every result carries exactly that pair |
| CoincheckClient.TwoFundsSplit | pkg/infrastructure/coincheck/client.go:139-150 | with one positive and one non-positive fund, the positive one is the increase side and the other the decrease side, whichever order the map is visited in |
| CoincheckClient.LiquidityOf | pkg/infrastructure/coincheck/client.go:152-157 | Maker exactly for "M", Taker for everything else |
| CoincheckClient.SideOf | pkg/infrastructure/coincheck/client.go:159-164 | BuySide exactly for "buy", SellSide for everything else |
| CoincheckClient.ToContract | pkg/infrastructure/coincheck/client.go:166-178 | the contract keeps the transaction's id, order id and fee currency; rate and fee are the parsed texts; it is a buy exactly for side `buy` and Maker exactly for liquidity `M`; the increase and decrease currencies and amounts are those of the funds split |
| CoincheckClient.ContractsOf | pkg/infrastructure/coincheck/client.go:133-180 | on success there is one contract per transaction |
| CoincheckClient.ContractsFailIffBadFunds | pkg/infrastructure/coincheck/client.go:135-137 | the mapping fails exactly when some transaction's funds do not have two entries |
| CoincheckClient.ContractsFollowTransactions | pkg/infrastructure/coincheck/client.go:133-180 | contract k is built from transaction k, with the same id and order id, in input order |
| CoincheckClient.ContractsErrorSticks | pkg/infrastructure/coincheck/client.go:135-137 | the first bad transaction decides the result; later ones do not change it |
| CoincheckClient.GetContracts | pkg/infrastructure/coincheck/client.go:127-181 | the nested loops compute `ContractsOf`; a failed request is passed on |
| CoincheckClient.GetCache | pkg/infrastructure/coincheck/client.go:295-302 | nil unless both the pair entry and the side entry exist; otherwise the entry under both keys |
| MemoryRates.PushedBounded | pkg/infrastructure/memory/client.go:22-33 | a push onto a queue within capacity gives length min(old + 1, maxSize) and puts the new rate last; on overflow only the oldest entry is dropped and the rest keep their order |
| MemoryRates.RateRepository.constructor | pkg/infrastructure/memory/client.go:13-19 | both queues start empty, with the given size limit |
| MemoryRates.RateRepository.AddOrderRate | pkg/infrastructure/memory/client.go:22-35 | SellSide rates go to the sell queue and any other side to the buy queue; that queue is pushed with front trimming, the other is unchanged, and the bound is kept |
| MemoryRates.RateRepository.GetCurrentRate | pkg/infrastructure/memory/client.go:38-52 | nil exactly for an empty queue, otherwise the newest entry's rate |
| MemoryRates.RateRepository.GetRateHistory | pkg/infrastructure/memory/client.go:55-69 | the rates of the side's queue, oldest first, with the same length |
| MemoryRates.RateRepository.GetHistorySizeMax | pkg/infrastructure/memory/client.go:72-74 | the configured size limit |
| MemoryExchange.BuyContract | pkg/infrastructure/memory/exchange.go:153-165 | a buy fill adds the key currency, spends `amount` of the settlement currency, and is priced at the step's buy rate |
| MemoryExchange.SellContract | pkg/infrastructure/memory/exchange.go:188-200 | a sell fill spends `amount` of the key currency and adds settlement currency, at the step's sell rate |
| MemoryExchange.ContractAmounts | pkg/infrastructure/memory/exchange.go:157-192 | a buy receives `amount / buyRate`; selling at the same step what a buy received gives back exactly what the buy spent, since both sides are priced at the buy rate |
| MemoryExchange.CloseAsWritten | pkg/infrastructure/memory/exchange.go:137-221 | `closeOrder` as the program runs it: only an Open order changes, and only to Closed; a non-open order is left alone with no contract |
| MemoryExchange.CloseAsWrittenSettles | pkg/infrastructure/memory/exchange.go:137-221 | for an open order: a limit buy closes and is charged exactly when its bid reaches the ask or its stop-loss is at or below it; a limit sell closes by the mirror rule and is charged whether or not it closes; market orders always close and are charged; unknown types are untouched |
| MemoryExchange.UnfilledSellGetsContract | pkg/infrastructure/memory/exchange.go:182-200 | a 200 ask against a 100 bid stays Open and still gets a contract |
| MemoryExchange.Close | pkg/infrastructure/memory/exchange.go:137-221 | a non-open order is unchanged; a limit buy closes exactly when its bid reaches the ask or its stop-loss is at or below it; a limit sell closes by the mirror rule; market orders always close; exactly a closing order gets a contract, priced by its side |
| MemoryExchange.CloseAgreesExceptUnfilledSell | pkg/infrastructure/memory/exchange.go:182-200 | the as-written and intended settling agree on every input except an open limit sell that does not fill |
| MemoryExchange.CloseSettlesOnce | pkg/infrastructure/memory/exchange.go:137-221 | settling twice at the same rate: the intended settle produces nothing the second time, while as written a second contract appears exactly for an order still open as a limit sell |
| MemoryExchange.SettleAsWritten | pkg/infrastructure/memory/exchange.go:137-221 | the status `closeOrder` leaves: only an Open order changes, and only to Closed |
| MemoryExchange.ChargeAsWritten | pkg/infrastructure/memory/exchange.go:137-221 | the contract `closeOrder` appends: none for an order that is not Open, otherwise one numbered with the id passed in and pointing at that order |
| MemoryExchange.SweepOrders | pkg/infrastructure/memory/exchange.go:132-134 | a step of `closeOrder` over every order keeps their number and changes only order status, and only from Open to Closed |
| MemoryExchange.SweepContracts | pkg/infrastructure/memory/exchange.go:132-134 | the contracts a step appends, at most one per order visited |
| MemoryExchange.ResettleContracts | pkg/infrastructure/memory/exchange.go:182-200 | the contracts a repeated step owes: only sell contracts, numbered consecutively from the next id |
| MemoryExchange.SettledIsAtRest | pkg/infrastructure/memory/exchange.go:137-221 | whatever `closeOrder` leaves behind settles to itself at the same rate |
| MemoryExchange.AtRestSettlesAgain | pkg/infrastructure/memory/exchange.go:137-221 | on an order at rest, `closeOrder` changes nothing and charges a sell contract exactly when the order is an open limit sell |
| MemoryExchange.ChargeAtRest | pkg/infrastructure/memory/exchange.go:132-134 | a step over orders that are all at rest charges exactly one sell contract per open limit sell, in order |
| MemoryExchange.SweepNumbersContracts | pkg/infrastructure/memory/exchange.go:137-221 | contracts from a step are numbered consecutively after the existing ones, as `len(e.contracts) + 1` gives |
| MemoryExchange.SweepAgainChargesOpenSells | pkg/infrastructure/memory/exchange.go:127-135 | a second step at the same rates changes no order, and its only contracts are one new sell contract per limit sell still open, numbered on from the existing contracts |
| MemoryExchange.CancelAsWritten | pkg/infrastructure/memory/exchange.go:121-124 | `DeleteOrder` as written cancels the order at list position `id`, not the order with that id |
| MemoryExchange.CancelAsWrittenHitsNextOrder | pkg/infrastructure/memory/exchange.go:122 | deleting order 1 of two cancels order 2 and leaves order 1 open |
| MemoryExchange.Cancel | pkg/infrastructure/memory/exchange.go:121-124 | the intended delete: exactly the order with that id is canceled; an unknown id is an error |
| MemoryExchange.OpenOrdersMembership | pkg/infrastructure/memory/exchange.go:78-86 | an order is listed as open exactly when it was posted and its status is Open |
| MemoryExchange.CloseKeepsConsistent | pkg/infrastructure/memory/exchange.go:137-221 | settling one order as written keeps the simulator consistent: orders and contracts numbered from 1, each contract belongs to a posted order that is closed unless it is a limit sell, and only limit sells have more than one contract |
| MemoryExchange.PostKeepsConsistent | pkg/infrastructure/memory/exchange.go:102-111 | posting with the next id keeps the simulator consistent |
| MemoryExchange.StepKeepsConsistent | pkg/infrastructure/memory/exchange.go:127-131 | moving to another step of the table keeps the simulator consistent |
| MemoryExchange.SettleAll | pkg/infrastructure/memory/exchange.go:132-134 | the loop of `NextStep` applies `closeOrder` as written to every order in turn: the orders become `SweepOrders`, the contracts grow by `SweepContracts` numbered after the existing ones, and it keeps the state consistent |
| MemoryExchange.ExchangeMock.constructor | pkg/infrastructure/memory/exchange.go:22-45 | MONA/JPY at step 0 of the 100..112 table, no orders, no contracts, consistent |
| MemoryExchange.ExchangeMock.GetStoreRate | pkg/infrastructure/memory/exchange.go:48-53 | the current step's store rate for the pair asked |
| MemoryExchange.ExchangeMock.GetOrderRate | pkg/infrastructure/memory/exchange.go:56-70 | the current buy rate for BuySide, and the sell rate for any other side |
| MemoryExchange.ExchangeMock.GetAccountBalance | pkg/infrastructure/memory/exchange.go:73-75 | no balance |
| MemoryExchange.ExchangeMock.GetOpenOrders | pkg/infrastructure/memory/exchange.go:78-86 | exactly the Open orders, in posting order, whatever the pair |
| MemoryExchange.ExchangeMock.GetContracts | pkg/infrastructure/memory/exchange.go:89-91 | all contracts recorded so far |
| MemoryExchange.ExchangeMock.CloseOrder | pkg/infrastructure/memory/exchange.go:137-221 | `closeOrder` as written on the order at that position: the order becomes its settled form, its contract (if any) is appended, the step is unchanged and consistency is kept |
| MemoryExchange.ExchangeMock.PostOrder | pkg/infrastructure/memory/exchange.go:94-118 | appends one Open order with id old count + 1 and the requested fields, taking the market-buy amount for market buys; market orders are settled at once, end Closed and add exactly one contract; consistency is kept |
| MemoryExchange.ExchangeMock.DeleteOrder | pkg/infrastructure/memory/exchange.go:121-124 | the order with the given id is canceled (the corrected behaviour); an unknown id is an error; contracts are untouched |
| MemoryExchange.ExchangeMock.HasNextStep | pkg/infrastructure/memory/exchange.go:224-226 | true exactly while a next step exists in the table |
| MemoryExchange.ExchangeMock.NextStep | pkg/infrastructure/memory/exchange.go:127-135 | advances the step only when a next one exists, then settles every order with `closeOrder` as written against the new step's rates; the step stays within the table and consistency is kept |
| TradeUtil.FirstMinIndex | pkg/usecase/trade/util.go:16-27 | an in-range index of a smallest element, with every earlier element strictly larger |
| TradeUtil.FirstMaxIndex | pkg/usecase/trade/util.go:3-14 | an in-range index of a largest element, with every earlier element strictly smaller |
| TradeUtil.FirstMinIsUnique | pkg/usecase/trade/util.go:21 | the first-minimum properties determine the index |
| TradeUtil.FirstMaxIsUnique | pkg/usecase/trade/util.go:8 | the first-maximum properties determine the index |
| TradeUtil.MaxRate | pkg/usecase/trade/util.go:3-14 | the value at the returned in-range index is at least every rate, and every earlier rate is strictly smaller (ties keep the first occurrence) |
| TradeUtil.MinRate | pkg/usecase/trade/util.go:16-27 | the value at the returned in-range index is at most every rate, and every earlier rate is strictly larger; `inago.go`'s private `minRate` and `maxRate` (pkg/usecase/strategy/inago.go:223-247) are the same code |
| StrategyCommon.FirstTrue | pkg/usecase/strategy/inago.go:46-81 | the first failing check in order: every earlier check passed |
| StrategyCommon.CanOrder | pkg/usecase/strategy/support_line_watch.go:177-188 | ordering is allowed exactly when no position's opener was ordered after `now - BuyIntervalSeconds`; inago.go:139-150 is the same code |
| StrategyCommon.FoldMin | pkg/usecase/strategy/inago.go:158-167 | the `math.Min` fold is at most the start value and every rate, and equals one of them |
| StrategyCommon.ContractRatesMembership | pkg/usecase/strategy/inago.go:159-167 | a rate is among the folded rates exactly when some fetched contract has it |
| StrategyCommon.BelowScaledMin | pkg/usecase/strategy/inago.go:158-174 | under a positive ratio, a rate is below the scaled minimum exactly when it is below the scaled start value and every scaled contract rate |
| StrategyCommon.MinOverContracts | pkg/usecase/strategy/inago.go:164-166 | the inner loop folds one position's contract rates into the running minimum |
| StrategyCommon.MinContractRate | pkg/usecase/strategy/support_line_watch.go:196-205 | the minimum over all contract rates from `buyRate * 1000`; it fails exactly when a fetch fails, with the first failing fetch's error |
| StrategyCommon.AmountsOfDistinctIds | pkg/usecase/strategy/inago.go:379 | with distinct position ids, each id maps to what its own contracts bought |
| StrategyCommon.PositionTotals | pkg/usecase/strategy/inago.go:364-381 | money spent, currency held and the amount per position id over every contract; it fails exactly when a fetch fails, with the first error |
| StrategyCommon.Minima | pkg/usecase/strategy/inago.go:188-195 | the two anchors lie in the windows `[n-t1, n-2)` and `[n-t1-t2, n-t1-2)`, with the older one first |
| StrategyCommon.MinimaAreWindowMinima | pkg/usecase/strategy/inago.go:188-195 | each anchor is a smallest rate of its window |
| StrategyCommon.WindowMinIndex | pkg/usecase/strategy/inago.go:190-191 | an index into the whole sequence, inside the window, of a smallest window rate |
| StrategyCommon.LineThroughAnchors | pkg/usecase/strategy/inago.go:197-199 | the support line passes through both minima |
| StrategyCommon.MinimaAsWritten | pkg/usecase/strategy/inago.go:188-195 | the anchors the program uses: the newer minimum at its absolute index, the older one at its index within its window, which lies before the newer index |
| StrategyCommon.SupportLineAsWrittenThroughNewerMinimum | pkg/usecase/strategy/inago.go:197-199 | the line as written still passes through the newer minimum, and through the older minimum's rate placed at its window-relative index |
| StrategyCommon.SupportLineAsWrittenAtStart | pkg/usecase/strategy/inago.go:195-197 | the as-written anchors are the intended ones exactly when the older window starts at index 0, and then the as-written line is the intended one |
| StrategyCommon.SupportLineAsWrittenMissesOlderMinimum | pkg/usecase/strategy/inago.go:195-197 | for rates 5 1 5 5 2 5 5 with periods 3 and 3, the as-written line gives 5/2 instead of 8/3, so a sell rate of 2.6 is not seen to cross |
| StrategyCommon.ScanWindow | pkg/usecase/strategy/support_line_watch.go:227-228 | `MinRate` over one window, with its index shifted back into the whole sequence |
| StrategyCommon.TermMinima | pkg/usecase/strategy/support_line_watch.go:225-232 | the two window scans give the anchors as the program has them: the newer index shifted back into the rates, the older one left window-relative (`MinimaAsWritten`) |
| StrategyCommon.SupportLineCross | pkg/usecase/strategy/support_line_watch.go:219-258 | false while fewer than t1 + t2 rates exist; otherwise a sell-rate error is passed on, or the answer is whether the sell rate lies below the line the program draws (`SupportLineAsWritten`); inago.go:182-221 is the same code |
| StrategyCommon.Scan | pkg/usecase/strategy/inago.go:337-348 | completes with false exactly when every fetch succeeded and no contract rate meets the stop test; an error is the first failing fetch's |
| StrategyCommon.ScanFailsIffErrorReached | pkg/usecase/strategy/inago.go:337-348 | the scan returns an error exactly when it reaches a failing fetch, every earlier fetch having succeeded with no contract meeting the stop test |
| StrategyCommon.ScanContracts | pkg/usecase/strategy/support_line_watch.go:304-315 | the nested loops compute `Scan` |
| StrategyCommon.SellOrders | pkg/usecase/strategy/inago.go:421-428 | one market sell per position, in order, with the amount under its id, or 0 when the id is missing |
| StrategyCommon.SentUntilIsUnique | pkg/usecase/strategy/inago.go:421-428 | the outcome of sending is determined by the orders and the answers |
| StrategyCommon.SendAll | pkg/usecase/strategy/inago.go:421-428 | sends in order and stops at the first failure, with that error |
| StrategyCommon.Wait | pkg/usecase/strategy/inago.go:444-468 | stops at the first tick where the context is done, standby holds after a tick, the interval is used up, or the wait fails; the tick count is at most the interval; the result is an error exactly when the wait failed |
| StrategyCommon.WaitTicksUnique | pkg/usecase/strategy/inago.go:447-467 | the tick the loop stops at is determined |
| StrategyCommon.WaitUnderStandbyTakesOneTick | pkg/usecase/strategy/inago.go:453-456 | with standby set, a positive interval and an uneventful first tick, the wait lasts exactly one tick |
| StrategyCommon.FirstEmptyField | pkg/usecase/strategy/inago.go:46-81 | the validation both configs share: an error exactly when some field holds its zero value, naming the first such field in check order |
| Inago.Valid | pkg/usecase/strategy/inago.go:46-81 | an error exactly when one of the 11 checked fields is zero, naming the first such field in check order |
| Inago.Decide | pkg/usecase/strategy/inago.go:399-411 | fix profit exactly when the worth reaches the fix ratio of the money spent; otherwise loss-cut exactly when it is at most the loss-cut ratio; hold in between |
| Inago.InagoStrategy.constructor | pkg/usecase/strategy/inago.go:106-113 | not on sell standby |
| Inago.InagoStrategy.CanAveragingDown | pkg/usecase/strategy/inago.go:152-180 | false when the buy rate is unavailable; true with no positions; otherwise whether the buy rate is below the ratio times the minimum of `buyRate * 1000` and every contract rate; a failing contract fetch is an error |
| Inago.AveragingDownBelowEveryContract | pkg/usecase/strategy/inago.go:158-176 | with a positive ratio, averaging down is allowed exactly when the buy rate is below the scaled `buyRate * 1000` and below every scaled contract rate |
| Inago.InagoStrategy.BuyTradeCallback | pkg/usecase/strategy/inago.go:304-324 | sell standby is set exactly when there are positions and the volume exceeds the maximum, and it is never cleared here; fetch errors change nothing |
| Inago.InagoStrategy.SellTradeCallback | pkg/usecase/strategy/inago.go:326-356 | with no positions nothing changes; otherwise standby is cleared exactly when the scan completes without finding a contract rate at or below the trade rate |
| Inago.ReleaseIffBelowEveryContract | pkg/usecase/strategy/inago.go:337-353 | that scan completes clean exactly when every fetch succeeded and the trade rate is below every contract rate |
| Inago.InagoStrategy.Sell | pkg/usecase/strategy/inago.go:358-434 | no positions, a failed fetch or too few rates decide nothing; otherwise the decision is `Decide` on the positions' worth and cost; a hold sets standby when the worth exceeds the cost; a sale sends each position's amount and clears standby when every send went through |
| Inago.InagoStrategy.Wait | pkg/usecase/strategy/inago.go:444-468 | the shared wait loop with the sell-standby flag: the same stopping tick, bound and error cases as `StrategyCommon.Wait` |
| SupportLineWatch.Validate | pkg/usecase/strategy/support_line_watch.go:36-68 | an error exactly when one of the 10 checked fields is zero, naming the first such field in check order |
| SupportLineWatch.CancelAll | pkg/usecase/strategy/support_line_watch.go:391-398 | settle orders are cancelled in order, stopping at the first failure with its error |
| SupportLineWatch.SupportLineWatchStrategy.constructor | pkg/usecase/strategy/support_line_watch.go:90-97 | not on buy standby |
| SupportLineWatch.SupportLineWatchStrategy.CanAveragingDown | pkg/usecase/strategy/support_line_watch.go:190-217 | false when the buy rate is unavailable; true with no positions; otherwise whether the buy rate is below the minimum of `buyRate * 1000` and every contract rate |
| SupportLineWatch.AveragingDownBelowEveryContract | pkg/usecase/strategy/support_line_watch.go:196-213 | with positions, averaging down is allowed exactly when the buy rate is below `buyRate * 1000` and below every contract rate |
| SupportLineWatch.SupportLineWatchStrategy.BuyFilled | pkg/usecase/strategy/support_line_watch.go:291 | a filled buy leaves buy standby |
| SupportLineWatch.SupportLineWatchStrategy.BuyTradeCallback | pkg/usecase/strategy/support_line_watch.go:296-323 | buy standby is cleared exactly when the scan completes without finding a contract rate at or above the trade rate; errors change nothing |
| SupportLineWatch.ReleaseIffAboveEveryContract | pkg/usecase/strategy/support_line_watch.go:303-320 | that scan completes clean exactly when every fetch succeeded and the trade rate is above every contract rate |
| SupportLineWatch.SupportLineWatchStrategy.SellTradeCallback | pkg/usecase/strategy/support_line_watch.go:325-345 | at the maximum position count standby is unchanged; otherwise a volume above the maximum sets it; it is never cleared here |
| SupportLineWatch.SupportLineWatchStrategy.Sell | pkg/usecase/strategy/support_line_watch.go:347-412 | no positions, a failed fetch or a missing sell rate decide nothing; otherwise the loss is cut exactly when the worth is at most the loss-cut ratio of the cost; cutting cancels every settle order, then market-sells every cancelled position with its bought amount, stopping at the first failure; no other outcome exists |
| SupportLineWatch.SupportLineWatchStrategy.Wait | pkg/usecase/strategy/support_line_watch.go:414-438 | the shared wait loop with the buy-standby flag: the same stopping tick, bound and error cases as `StrategyCommon.Wait` |
| GaSimulator.Intn | cmd/ga-simulator/main.go:139 | a drawn number taken modulo `n` lies in `[0, n)` |
| GaSimulator.MakeConfig | cmd/ga-simulator/main.go:45-59 | MONA, interval 0, one position, funds ratio 0.3; the long term exceeds the short term by gene 1 |
| GaSimulator.MakeConfigRoundTrip | cmd/ga-simulator/main.go:45-59 | the short term is gene 0 and each of the four ratios is exactly its gene divided by 1000 (genes 2 to 5); hence all six genes can be read back from the configuration, so nothing is lost |
| GaSimulator.RandomGene | cmd/ga-simulator/main.go:224-229 | six genes, each in `[0, 999]` |
| GaSimulator.MakeRandomIndividual | cmd/ga-simulator/main.go:224-234 | six genes in `[0, 999]` drawn in order, and no profit |
| GaSimulator.MakeInitIndividuals | cmd/ga-simulator/main.go:126-136 | for size at least 2: exactly `size` individuals, the good gene first, then random ones each drawing the next six numbers; all unevaluated and in range |
| GaSimulator.RankList | cmd/ga-simulator/main.go:166-171 | every entry is a rank below the number of individuals listed |
| GaSimulator.RankListLength | cmd/ga-simulator/main.go:162-175 | the full list has `size * (size + 1) / 2` entries |
| GaSimulator.RankListCount | cmd/ga-simulator/main.go:166-171 | rank `i` appears exactly `size - i` times, and nothing else appears |
| GaSimulator.ChooseList | cmd/ga-simulator/main.go:164-171 | the nested loops list each individual by rank, `size - rank` times |
| GaSimulator.Choose | cmd/ga-simulator/main.go:162-175 | returns the individual at the drawn entry of the rank-weighted list, whose length is `size * (size + 1) / 2` |
| GaSimulator.DrawDistinct | cmd/ga-simulator/main.go:180-186 | the first pair of draws with different indices, every earlier pair being equal, or none when the draws run out |
| GaSimulator.CrossGene | cmd/ga-simulator/main.go:197-204 | the child gene has the first parent's length |
| GaSimulator.CrossoverAt | cmd/ga-simulator/main.go:188-206 | positions in `[min, max]` of the two indices come from the second parent and all others from the first; same length, no profit, genes stay in range |
| GaSimulator.Crossover | cmd/ga-simulator/main.go:177-207 | no child exactly when every pair of draws gives equal indices; otherwise the child is the splice over the min and max of the first pair of draws whose indices differ, a range `lo < hi` inside the gene; a one-gene parent never yields a child |
| GaSimulator.FirstDistinctPairUnique | cmd/ga-simulator/main.go:180-186 | the pair of draws that ends the retry loop is unique: no two pairs can both be the first with different indices |
| GaSimulator.CrossGeneOfSameParents | cmd/ga-simulator/main.go:197-204 | crossing a gene with itself gives it back |
| GaSimulator.CrossGeneSharesOut | cmd/ga-simulator/main.go:197-204 | the two children of a pair share out each position's two genes between them |
| GaSimulator.Mutate | cmd/ga-simulator/main.go:209-222 | same length, every gene kept except the drawn position, which gets a drawn value in `[0, 999]` |
| GaSimulator.Insert | cmd/ga-simulator/main.go:111-113 | inserting one evaluated individual adds one evaluated entry |
| GaSimulator.InsertPermutes | cmd/ga-simulator/main.go:111-113 | insertion adds the individual and loses nothing |
| GaSimulator.InsertSorted | cmd/ga-simulator/main.go:111-113 | insertion keeps the order by profit, best first |
| GaSimulator.InsertStable | cmd/ga-simulator/main.go:111-113 | insertion places the new individual after those of equal profit |
| GaSimulator.SortByProfit | cmd/ga-simulator/main.go:111-113 | the sort keeps the length and every individual evaluated |
| GaSimulator.SortByProfitPermutes | cmd/ga-simulator/main.go:111-113 | the sort is a permutation |
| GaSimulator.SortByProfitSorted | cmd/ga-simulator/main.go:111-113 | the result is ordered by profit, best first |
| GaSimulator.SortByProfitStable | cmd/ga-simulator/main.go:111-113 | for every profit, the individuals with that profit keep their original order |
| Fetch.OpenOrders | pkg/usecase/fetch.go:51 | the registered open orders are exactly the stored orders whose status is Open |
| Fetch.TargetsMembership | pkg/usecase/fetch.go:64-72 | a contract is a target exactly when the exchange returned it and a registered open order has its order id |
| Fetch.TargetsCount | pkg/usecase/fetch.go:64-72 | each target appears as often as in the exchange's list, and other contracts do not appear, so nothing is repeated or invented |
| Fetch.VanishedMembership | pkg/usecase/fetch.go:93-104 | an order has vanished exactly when it is registered open and the exchange does not list its id |
| Fetch.CloseAllEffect | pkg/usecase/fetch.go:105 | after closing a list of orders, a stored order is closed exactly when its id is among them; otherwise it is unchanged |
| Fetch.FetchOrdersEffect | pkg/usecase/fetch.go:93-108 | a registered open order missing from the exchange ends Closed; an order the exchange still lists is untouched |
| Fetch.FindId | pkg/usecase/fetch.go:66-71 | the search finds the id exactly when some order has it |
| Fetch.SelectTargets | pkg/usecase/fetch.go:64-72 | the loop computes the targets in exchange order |
| Fetch.CloseVanished | pkg/usecase/fetch.go:93-108 | vanished orders are closed in registered order; a failing update stops the loop with its error, after exactly the earlier vanished orders were closed |
| Fetch.ClosedUntilOkWhenUpdated | pkg/usecase/fetch.go:93-110 | the update loop fails only on a vanished order whose update fails; when all such updates succeed it ends with every vanished order closed |
| Fetch.ContractsError | pkg/usecase/fetch.go:50-79 | the error `fetchContracts` returns is that of the first failing call: the repository query, then the exchange query, then the upsert |
| Fetch.Fetcher.constructor | pkg/usecase/fetch.go:18-24 | a fetcher for the pair over the given stored orders, having saved and upserted nothing |
| Fetch.Fetcher.FetchContracts | pkg/usecase/fetch.go:50-79 | with no registered open order nothing is asked or written; otherwise the targets are upserted in one batch; any error leaves the upserts unchanged; stored orders and rates are never touched |
| Fetch.Fetcher.FetchOrders | pkg/usecase/fetch.go:82-111 | errors from the exchange's open-order query or the repository's own (asked again here, and able to fail on its own) change nothing; otherwise vanished orders are closed as `CloseVanished` states |
| Fetch.Fetcher.Fetch | pkg/usecase/fetch.go:27-47 | each stage's failure is returned as it is and leaves the later stages undone: a rate or save error changes nothing, a `fetchContracts` error (`ContractsError`) leaves orders and upserts unchanged, an exchange open-orders error, or a failure of the repository's second open-orders query, is returned with the orders unchanged; otherwise the update loop ends as `ClosedUntil` states, and it succeeds whenever every vanished order's update does |
| Chart.Before | web/static/chart.js:30-72 | the previous tick's time, absent exactly for the first tick |
| Chart.AnyMatchedIff | web/static/chart.js:41-56 | a flag is set exactly when some event of that type falls in the tick's window |
| Chart.Point | web/static/chart.js:58-65 | no marker exactly when neither a buy nor a sell matched |
| Chart.Support | web/static/chart.js:33-66 | the last row's support value is `support_line_value` |
| Chart.SupportLineIsLinear | web/static/chart.js:33-34 | between any two rows the line rises by the slope times their distance |
| Chart.Header | web/static/chart.js:21-28 | the four base columns, plus `sell order` exactly when the sell rate is positive |
| Chart.RowAt | web/static/chart.js:66-69 | a row holds the tick's time and sell rate and the support value, plus the pending sell rate exactly when one exists |
| Chart.Draw | web/static/chart.js:14-73 | the header, then exactly one row per market in market order, row `i` being `RowAt(i)` |
| Chart.RowMarker | web/static/chart.js:41-65 | yellow for both a buy and a sell in the window, green for buys only, red for sells only, none otherwise; events of other types are ignored |
| Chart.MatchedAtMostOnce | web/static/chart.js:42-72 | with strictly increasing tick times, no event falls in two windows |
| Chart.MatchedSomewhere | web/static/chart.js:42-72 | every event no later than the last tick falls in some window |
| Chart.UnmatchedAfterLast | web/static/chart.js:42-49 | an event after the last tick falls in no window |

## Left out

- Network, websocket, MySQL and Slack I/O, goroutines, timers, OS signals and the HTTP server are not modelled. Exchange, repository and facade answers, including their failures, are parameters.
- Rates and amounts are exact reals, not `float32`/`float64`. Rounding, NaN and infinity are not modelled. In particular, `math.Min`'s NaN behaviour and the float32 columns of the MySQL rows are not captured.
- Go's `strconv.ParseFloat`, `%d`, `%f` and `%.5f` formatting are function-typed parameters, and `time.Time` is whole seconds (milliseconds in the chart). Error texts carry only their fixed wording.
- Inago.Valid and SupportLineWatch.Validate: the error is the field name plus " is empty". Go's appended `%v` value and the `[file] validation error` prefix added by the TOML loaders are not modelled. TOML decoding itself is not modelled.
- Model.OrderString and Model.ContractString state only that the text ends with the status or side label. The text before it is assembled from the formatting parameters.
- TradeUtil.MaxRate and TradeUtil.MinRate require a non-empty slice. Go panics on `rates[0]` there.
- StrategyCommon.SupportLineCross requires both periods to be at least 3 once enough rates exist. Smaller periods give Go an empty or inverted window, which panics.
- CoincheckUtil.ToCurrencyPair requires a `_` in the text. Go panics on a missing second piece.
- CoincheckClient.GetOpenOrders requires every kept exchange order to have a `_` in its pair text, for the same reason.
- CoincheckClient.SplitFunds takes the funds entries in one given order. Go's map iteration order is unspecified, so it is an input. CoincheckClient.TwoFundsSplit shows the usual two-entry result does not depend on it.
- GaSimulator.MakeInitIndividuals requires `size >= 2`. For smaller sizes the Go loop never ends.
- GaSimulator.Crossover returns nothing when its finite stream of draws runs out. Go keeps drawing, and with a one-gene parent it never stops.
- GaSimulator.Choose and GaSimulator.Mutate require a non-empty population or gene, and GaSimulator.MakeConfig requires six genes. Go panics otherwise.
- Each `rand.Intn(n)` is a drawn natural taken modulo `n`. The distribution of the draws is not modelled.
- The GA's generation loop, `makeNextIndividual`'s choice between reproduction, crossover and mutation, and the simulations that score individuals are not modelled. The profit sort starts from already evaluated individuals.
- The `Buy` entry points of both strategies are not modelled as one operation. Their three checks are modelled one by one: support line cross, averaging down and order interval. The buy-and-poll loop (`buy`) is not modelled, nor the support-line-watch strategy's follow-up limit sells at the fix-profit rate (pkg/usecase/strategy/support_line_watch.go:121-174). Only the standby reset after a filled buy is kept.
- `isGoldenCross` and the ROC value in the inago `Sell` rest on go-talib indicators and are not modelled. `calcFixLimitRate` and `calcLosscutLimitRate` return the configured ratios, which `Inago.Decide` uses directly.
- The Coincheck client's `PostOrder`, `DeleteOrder`, `GetCancelStatus`, `GetVolumes`, `SubscribeTradeHistory`, request signing and the trade-cache filling are transport and are not modelled.
- MemoryExchange.ExchangeMock.DeleteOrder implements the corrected cancel by id (see Findings). The index-based delete as written is `MemoryExchange.CancelAsWritten`.
- MemoryExchange.ExchangeMock.PostOrder requires the market-buy amount for a market buy and the amount otherwise. Go dereferences the missing pointer and panics.
- The exchange simulator's `closeOrder` (its repeated limit-sell contracts included) and both strategies' support line are kept as written; the corrected definitions of Findings stand beside them with their proofs. The simulator's sell proceeds priced at the step's buy rate are kept as written. Its `NewExchangeMock` here is the fixed 13-step table, not the CSV-reading constructor of its tests.
- The fetcher's repository is modelled by the state it changes: saved rates, stored orders and upsert batches. Its answers are inputs, one per call, so the two `GetOpenOrders` queries fail or succeed independently. The exchange's own pair filter on open orders is part of its answer.
- The chart's data fetching, the widget options and the drawing are not modelled. Datetimes are numbers of milliseconds.

## Findings

| source | as written | input that shows it | evidently intended | confidence | as-written member | corrected member |
|---|---|---|---|---|---|---|
| pkg/infrastructure/memory/exchange.go:182-200 | a limit sell gets a contract on every settle, even while it stays open | open limit sell of 1 at 200 settled at the first step (rates 100): the order stays Open and a contract is added; each later step adds another | only a filled sell gets a contract, as for limit buys | high, not executed | MemoryExchange.CloseAsWritten (MemoryExchange.UnfilledSellGetsContract, MemoryExchange.SweepAgainChargesOpenSells) | MemoryExchange.Close (MemoryExchange.CloseAgreesExceptUnfilledSell, MemoryExchange.CloseSettlesOnce) |
| pkg/infrastructure/memory/exchange.go:122 | `DeleteOrder` indexes the order list by the order id, but ids start at 1 | orders 1 and 2 posted, `DeleteOrder(1)`: order 2 is canceled and order 1 stays open; deleting the newest order goes out of range | the order whose id is `id` is canceled | high, not executed | MemoryExchange.CancelAsWritten (MemoryExchange.CancelAsWrittenHitsNextOrder) | MemoryExchange.Cancel |
| pkg/usecase/strategy/inago.go:195-197 | the older minimum's index is left relative to its window, while the newer one is made absolute; support_line_watch.go:232-234 does the same | rates 5 1 5 5 2 5 5, both periods 3: the line is drawn through index 0 instead of 1, reaching 5/2 instead of 8/3 at the newest rate, so a sell rate of 2.6 is not seen to cross | both indexes absolute, so the line runs through the two minima | medium, not executed | StrategyCommon.SupportLineAsWritten (StrategyCommon.SupportLineAsWrittenMissesOlderMinimum, StrategyCommon.SupportLineCross) | StrategyCommon.SupportLine (StrategyCommon.LineThroughAnchors) |
