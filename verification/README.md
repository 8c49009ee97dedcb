# Backtest engine and route builder in Dafny

This project models two pieces of a trading-strategy backtester:

- **The backtest engine.** This is `BacktestEngine.simulate` and `BacktestEngine.run` in
  `server/services/backtest.ts`, plus the guard cases of `calculateSharpeRatio`.
  - The engine walks a price series bar by bar.
  - It starts Flat with the initial capital.
  - At each bar from index 50 on, it first records an equity sample. Then a Flat engine
    evaluates the entry rules and may buy, while a Long engine evaluates the exit rules
    and may sell.
  - A position still open after the last bar is sold at the last close. This forced
    close writes no trade record.
  - `run` refuses an empty price series. Otherwise it summarises the trades and the
    equity curve as total return, Sharpe ratio, maximum drawdown, win rate, profit
    factor and trade count.
- **`buildUrl`** in `shared/routes.ts`. It replaces the first `:key` placeholder of a
  route path with each parameter's value, one parameter at a time, in entry order.

## Modules

The modules follow the structure of the engine:

- `Wrappers`: `Option` and `Result`.
- `Rules`:
  - the rule document: typed `Condition`s, the `logic` field, and the defaults for
    empty condition lists;
  - the evaluation of one condition;
  - the AND/OR combination.
- `Alignment`:
  - the indicator series, which are inputs here;
  - the fixed warm-up offsets used to read them at bar `i`;
  - the `|| 50` default of the RSI reading and the `|| 0` default of the prior-bar
    moving averages.
- `Ledger`:
  - the engine state: capital, an optional position, the append-only trade log and
    the equity curve;
  - the fills: sample, buy, sell and the forced close.
- `Simulation`:
  - `Step` is one iteration of the bar loop.
  - `Replay`/`Visit` is the loop as a recursive fold over bar indices.
  - `Simulate` is the whole run.
  - Lemmas about the curve and the trade log.
- `Metrics`:
  - win rate, profit factor, total return, maximum drawdown and the Sharpe-ratio
    guard cases;
  - the `Run` method.
- `Routes`:
  - JavaScript's `includes`, `indexOf` and `replace` with a string pattern, including
    the `$` patterns of the replacement string;
  - `BuildUrl`.

The model keeps the engine's quirks as written:

- **Equity while Long.** The sample while Long is `capital + (close - entryPrice) * size`.
  Capital is 0 while Long, so the sample is only the unrealised profit.
- **RSI default.** An RSI reading of exactly 0 reads as 50.
- **Exit RSI rule.** An RSI exit rule ignores its comparator.
- **Break-even trades** count as losses.
- **Default exits under AND.** The default exit pair under any logic but `"OR"` can
  never fire.

The entry rules are the document's `entry.indicators` list. The exit rules are its
`exit.conditions` list. Both are `RuleSet.conditions` here.

## Model

| member | source | states |
|---|---|---|
| Rules.EntryHolds | server/services/backtest.ts:95-108 | an entry condition can only hold if it is an RSI, MACD or SMA condition with a comparator that type recognises; a MACD one needs a defined positive histogram; an SMA cross needs both current averages defined with the fast one above the slow one (the exact conditions at a bar are the Alignment lemmas RsiConditionAt, MacdPositiveAt, MacdCrossAboveAt and SmaCrossAboveAt) |
| Rules.ExitHolds | server/services/backtest.ts:127-132 | only Profit, Loss and RSI conditions can fire on exit; an RSI exit condition fires exactly when RSI is above its value, whatever its comparator |
| Rules.EntryRules | server/services/backtest.ts:90 | the entry rules in force are never empty |
| Rules.ExitRules | server/services/backtest.ts:91 | the exit rules in force are never empty |
| Rules.SomeEntryHolds | server/services/backtest.ts:95-111 | `some` over the mapped entry results is true iff some rule holds |
| Rules.EveryEntryHolds | server/services/backtest.ts:95-113 | `every` over the mapped entry results is true iff every rule holds |
| Rules.SomeExitHolds | server/services/backtest.ts:127-135 | `some` over the mapped exit results is true iff some rule holds |
| Rules.EveryExitHolds | server/services/backtest.ts:127-137 | `every` over the mapped exit results is true iff every rule holds |
| Rules.ShouldBuy | server/services/backtest.ts:110-114 | under logic "OR" the engine buys iff some entry rule in force holds; under any other logic, absent included, iff all of them hold |
| Rules.ShouldSell | server/services/backtest.ts:134-138 | the same for the exit rules |
| Rules.DefaultEntryIsRsiBelow35 | server/services/backtest.ts:90-114 | with no entry conditions, the engine buys exactly when RSI < 35, under either logic |
| Rules.DefaultExitUnderOr | server/services/backtest.ts:91-138 | with no exit conditions under OR, the engine sells exactly at a return of at least +10% or at most -5% |
| Rules.DefaultExitUnderAndNeverFires | server/services/backtest.ts:91-138 | with no exit conditions under any other logic, the default pair would need +10% and -5% at once, so it never sells |
| Rules.UnevaluableConditionBlocksAndEntry | server/services/backtest.ts:95-113 | under AND, one unknown, Profit or Loss condition in the entry list blocks every entry |
| Rules.UnknownConditionIgnoredUnderOr | server/services/backtest.ts:95-111 | under OR, appending an unknown condition to a non-empty entry list changes no decision |
| Alignment.RsiAt | server/services/backtest.ts:80 | the RSI reading is the aligned value when it exists and is non-zero, otherwise 50; it is never 0 |
| Alignment.HistogramAt | server/services/backtest.ts:81-102 | a MACD histogram is only read from inside the series and is the stored histogram |
| Alignment.EntryContextAt | server/services/backtest.ts:80-83 | at bar i the entry readings are RSI as RsiAt gives it, the MACD histogram at i - 26 and i - 27 (absent out of range), SMA(20) at i - 20 and SMA(50) at i - 50 (absent out of range), and SMA(20) at i - 21 and SMA(50) at i - 51, each 0 out of range |
| Alignment.RsiConditionAt | server/services/backtest.ts:96-98 | a lone RSI entry condition buys at bar i exactly when the RSI reading passes its `<` or `>` test; any other comparator never buys |
| Alignment.MacdPositiveAt | server/services/backtest.ts:100-101 | a lone MACD `positive` condition buys at bar i exactly when the histogram at i - 26 is defined and positive |
| Alignment.MacdCrossAboveAt | server/services/backtest.ts:81-102 | a lone MACD `cross_above` condition buys at bar i exactly when the histogram at i - 26 is defined and positive and the one at i - 27 is defined and at most 0 |
| Alignment.SmaCrossAboveAt | server/services/backtest.ts:82-105 | a lone SMA `cross_above` condition buys at bar i exactly when SMA(20) at i - 20 exceeds SMA(50) at i - 50 and SMA(20) at i - 21 is at most SMA(50) at i - 51, each of the last two 0 out of range |
| Alignment.SmaCrossAboveAtFirstBar | server/services/backtest.ts:75-105 | at the first visited bar, 50, the prior SMA(50) reading is out of range and reads 0, so the crossover needs SMA(20) at 29 to be at most 0; with positive averages it never fires there |
| Ledger.MarkToMarket | server/services/backtest.ts:86 | a Flat sample is the (positive) capital; a Long sample is the position's market value minus its cost basis, the unrealised profit |
| Ledger.Sample | server/services/backtest.ts:86-87 | one sample with the bar's time is appended; capital, position and trades are unchanged |
| Ledger.Buy | server/services/backtest.ts:116-122 | entry fills at the close raised by 0.05% (above the close), spends the capital less 0.1% commission on the position, leaves capital 0, stamps the bar's time, and keeps the invariant |
| Ledger.Sell | server/services/backtest.ts:140-155 | exit clears the position, sets capital to the proceeds, appends exactly one trade with the entry's time and price, an exit price 0.05% below the close, profit = proceeds - cost basis, and returnPct = profit / cost basis * 100 |
| Ledger.Liquidate | server/services/backtest.ts:159-161 | the forced close adds `size * lastClose * (1 - 0.001)`, with no slippage, and keeps final capital positive |
| Ledger.RoundTripCapital | server/services/backtest.ts:116-144 | a buy then a sell scales capital by both commissions and by the slipped exit over the slipped entry price |
| Ledger.BreakEvenRoundTripLoses | server/services/backtest.ts:116-144 | a round trip exiting at its entry close has negative profit and ends with less capital |
| Simulation.ExitContextAt | server/services/backtest.ts:125 | the exit readings are RSI as RsiAt gives it and the position's return since entry as a fraction: entry price times (1 + return) is the close |
| Simulation.ProfitExitAt | server/services/backtest.ts:125-128 | a lone Profit(v) exit sells exactly when the close is at least (1 + v) times the entry price |
| Simulation.LossExitAt | server/services/backtest.ts:125-129 | a lone Loss(v) exit sells exactly when the close is at most (1 - v) times the entry price |
| Simulation.RsiExitAt | server/services/backtest.ts:130 | a lone RSI exit sells exactly when the RSI reading exceeds its value, whatever its comparator |
| Simulation.Step | server/services/backtest.ts:78-157 | one bar keeps the invariant, appends exactly one sample taken before the decision, and makes at most one transition. Flat: enters iff ShouldBuy at this bar's close times 1.0005, with capital 0 and a cost basis of the capital times 0.999, stamped with the bar time, no trade written. Long: exits iff ShouldSell, the proceeds at this bar's close becoming the capital, and appends one trade from the entry time to the bar time carrying the entry price, the exit price `close * 0.9995`, the profit over the cost basis and its percentage. Without a transition, capital and trades are unchanged |
| Simulation.Replay | server/services/backtest.ts:78-157 | after the loop reaches bar k the invariant holds, the curve holds one sample per visited bar, and the transitions are bounded by that count |
| Simulation.Visit | server/services/backtest.ts:78-157 | the same facts after one more bar |
| Simulation.Simulate | server/services/backtest.ts:47-164 | the curve has `max(0, n - 50)` samples and `2 * trades <= max(0, n - 50)`; the trade log is the loop's; a flat end keeps the loop's capital; an open position is liquidated at the last close without slippage; final capital is positive |
| Simulation.CurveGrowsByOneBar | server/services/backtest.ts:87 | each visited bar appends exactly one sample and keeps the earlier ones |
| Simulation.SampleOfBar | server/services/backtest.ts:86-87 | the sample bar i appends carries its time and the equity of the ledger before the bar |
| Simulation.CurveGrowsByPrefix | server/services/backtest.ts:87 | the equity curve is append-only: earlier curves are prefixes of later ones |
| Simulation.SampleStays | server/services/backtest.ts:87 | later bars never change bar i's sample |
| Simulation.SampleBeforeDecision | server/services/backtest.ts:76-93 | sample i - 50 of the result has bar i's time and the equity before bar i's decision; taken while Flat, it equals the capital |
| Simulation.FirstSampleIsInitialCapital | server/services/backtest.ts:48-87 | the first sample is the initial capital |
| Simulation.OrderedAfterBar | server/services/backtest.ts:116-155 | one bar's transition preserves the ordering of the trade log against bar times |
| Simulation.ReplayOrdered | server/services/backtest.ts:78-157 | with ascending bar times, the log is ordered and an open position entered after the last exit, at every loop index |
| Simulation.TradesInTimeOrder | server/services/backtest.ts:78-157 | with ascending bar times, every trade exits after it enters and enters after the previous trade exited: no overlap, appended in time order |
| Simulation.NoEntryNoTrades | server/services/backtest.ts:93-122 | if the entry rules hold at no visited bar, the engine stays flat with the initial capital and no trades |
| Simulation.DefaultExitUnderAndNeverTrades | server/services/backtest.ts:91-155 | with no exit conditions and non-OR exit logic, a run records no trade at all |
| Metrics.CountWins | server/services/backtest.ts:18 | there are at most as many wins as trades |
| Metrics.CountLosses | server/services/backtest.ts:19 | there are at most as many losses as trades |
| Metrics.WinsAndLossesPartition | server/services/backtest.ts:18-19 | each trade is exactly one of win (profit > 0) or loss (profit <= 0) |
| Metrics.GrossProfit | server/services/backtest.ts:38 | the winners' profit is non-negative, and positive iff there is a win |
| Metrics.GrossLoss | server/services/backtest.ts:38 | the losers' profit is non-positive |
| Metrics.WinRate | server/services/backtest.ts:20 | the rate is 0 without trades and lies in [0, 100]; otherwise rate * trades = wins * 100 |
| Metrics.ProfitFactor | server/services/backtest.ts:38 | 999 when no trade lost; with a negative loss sum, a non-negative ratio with pf * abs(loss) = profit. When every loss broke even the result is Infinity if some trade won and NaN otherwise |
| Metrics.TotalReturn | server/services/backtest.ts:17 | applying the percentage to the initial capital gives the final capital; positive iff money was made, zero iff none |
| Metrics.PeakUpTo | server/services/backtest.ts:24-26 | the running peak is the largest of the samples so far and is one of them |
| Metrics.DrawdownsFromIndex | server/services/backtest.ts:23-28 | the drawdown sequence lists, at each position, the drawdown of that sample from its running peak |
| Metrics.RunningMaxIsMax | server/services/backtest.ts:23-28 | a running maximum that starts at 0 and takes each value exceeding it bounds every value scanned so far, and is either 0 or one of them |
| Metrics.MaxDrawdown | server/services/backtest.ts:22-29 | the scan returns a non-negative value that bounds every sample's drawdown from its running peak, and is either 0 or attained by some sample |
| Metrics.DrawdownOfNonNegativeSample | server/services/backtest.ts:27 | a non-negative sample is at most 100% below its peak |
| Metrics.DrawdownAtMostHundred | server/services/backtest.ts:22-29 | on a curve without negative samples the maximum drawdown is at most 100 |
| Metrics.DrawdownScenario | server/services/backtest.ts:22-29 | samples 100, 110, 90, 120 have maximum drawdown (110 - 90) / 110 * 100 |
| Metrics.DrawdownCanExceedHundred | server/services/backtest.ts:22-29 | a negative sample (an unrealised loss while Long) after a peak of 100 gives a drawdown above 100 |
| Metrics.Returns | server/services/backtest.ts:168-171 | there is one return per consecutive pair, and each sample is the previous one grown by its return |
| Metrics.SquaredDeviation | server/services/backtest.ts:173 | a sum of squared deviations is never negative |
| Metrics.SquaredDeviationOfConstant | server/services/backtest.ts:173 | values equal to the mean have zero squared deviation |
| Metrics.Product | server/services/backtest.ts:173 | a square (`Math.pow(x, 2)`) is never negative, and is positive unless x is 0 |
| Metrics.DeviationPositive | server/services/backtest.ts:173 | one value other than the mean makes the squared deviation positive |
| Metrics.ZeroDeviationIsConstant | server/services/backtest.ts:173-174 | the squared deviation from m is 0 exactly when every value equals m |
| Metrics.SumOfConstant | server/services/backtest.ts:172 | the sum of n copies of c is n * c |
| Metrics.MeanOfConstant | server/services/backtest.ts:172 | the mean of values that all equal the first is the first |
| Metrics.Sharpe | server/services/backtest.ts:166-175 | 0 for fewer than two samples; NaN exactly when a return divides by a zero sample; otherwise 0 exactly when every per-bar return is the same (zero variance), and a ratio with positive variance when they differ |
| Metrics.FlatCurveHasZeroSharpe | server/services/backtest.ts:166-175 | a constant non-zero curve has a Sharpe ratio of 0 |
| Metrics.Summarise | server/services/backtest.ts:15-39 | the trade count is the number of trades; the total return is the percentage change that takes the initial capital to the final capital; the win rate is WinRate of the trades (wins / trades * 100, 0 without trades) and lies in [0, 100]; the profit factor is ProfitFactor of the trades (gross profit over the absolute gross loss, 999 without losses); the drawdown is the maximum over the curve; the Sharpe ratio is that of the curve |
| Metrics.Run | server/services/backtest.ts:8-45 | fails with "No historical data available" iff the series is empty. Otherwise it reports the simulation's trades and curve, tradesCount = number of trades, the total return of the final capital over the initial capital (TotalReturn, whose contract ties it to the percentage change), the win rate of the trades (WinRate: wins / trades * 100, in [0, 100], 0 without trades) and their profit factor (ProfitFactor: gross profit over absolute gross loss, 999 without losses). The first sample is the initial capital; the drawdown is the curve's maximum; the Sharpe ratio is that of the curve |
| Metrics.NoEntryScenario | server/services/backtest.ts:15-39 | if no entry ever fires, there are no trades, the win rate is 0, the profit factor is 999 and the total return is 0 |
| Routes.IndexOfFrom | shared/routes.ts:96 | returns the first occurrence at or after the start, or none if there is no occurrence there |
| Routes.IndexOf | shared/routes.ts:95-96 | finds an occurrence iff `includes` holds, and that occurrence is the first |
| Routes.Expand | shared/routes.ts:96 | a replacement without `$` is inserted literally |
| Routes.ExpandPatterns | shared/routes.ts:96 | `$$` gives `$`, `$&` the matched text, `` $` `` the text before it and `$'` the text after it; a lone `$` and `$1` stay as written |
| Routes.ReplaceFirst | shared/routes.ts:96 | without an occurrence, the string is unchanged; otherwise the text before the first occurrence, the expanded replacement and the text after it, in order |
| Routes.Placeholder | shared/routes.ts:95 | a placeholder is the key behind one colon |
| Routes.Substitute | shared/routes.ts:95-97 | the url changes only if it contains the parameter's `:key` |
| Routes.SubstituteAll | shared/routes.ts:94-98 | the `forEach` over the parameters leaves a url without a colon unchanged |
| Routes.BuildUrl | shared/routes.ts:91-101 | with no parameter record, or an empty one, the path is returned unchanged; so is a path with no colon, whatever the parameters |
| Routes.SubstitutionsCompose | shared/routes.ts:94-98 | parameters apply left to right, each to the previous result |
| Routes.LastParameterActsLast | shared/routes.ts:94-98 | the last parameter is applied to the result of all the others |
| Routes.PlaceholderNeedsColon | shared/routes.ts:95 | a url containing a placeholder contains a colon |
| Routes.SubstitutionLength | shared/routes.ts:96 | a performed substitution with a `$`-free value puts the value in place of the first `:key` and changes the length by `|value| - |key| - 1` |
| Routes.LaterOccurrencesSurvive | shared/routes.ts:96 | only the first occurrence is replaced; every later non-overlapping one survives, shifted |
| Routes.OrderMattersShortKeyFirst | shared/routes.ts:94-98 | on `:ab`, parameters a then ab give `xb` |
| Routes.OrderMattersLongKeyFirst | shared/routes.ts:94-98 | on `:ab`, parameters ab then a give `y`, so entry order decides the url |

## Left out

- **Indicator library.** The `technicalindicators` library (RSI, MACD, SMA, Bollinger
  bands, ATR) is foreign code.
  - Its outputs are an input `Indicators` record of series.
  - The MACD histogram is `Option` to cover its warm-up entries.
  - Bollinger bands and ATR never influence a decision.
- **Floating point.** Numbers are `real`, so rounding is not modelled.
  - Two NaN/Infinity cases are modelled explicitly: the profit factor when every loss
    broke even (`Float`), and the Sharpe ratio of a curve with a zero sample before its
    end (`SharpeNaN`).
  - `peak = -Infinity` is modelled as "the first sample becomes the peak".
- **Positive inputs.** Simulate and Run require positive closing prices and a positive
  initial capital. With a zero close or a zero capital the engine divides by zero and
  produces Infinity/NaN values that the real-number model cannot represent.
- **Unordered bar times.** TradesInTimeOrder and ReplayOrdered assume strictly
  increasing bar times. The engine does not check this itself.
- **Square roots in the Sharpe ratio.** `Math.sqrt` and the `sqrt(252)`
  annualisation are not modelled. `SharpeOf(mean, variance)` stands for the
  annualised ratio; the guard cases and the zero-variance test are proved, not the
  value of the ratio.
- **Dates.** Dates and ISO strings are integer bar times.
- **Null rule document.** The crash on a null `parsedJson` is not modelled; a rule
  document is always present. A missing `entry` or `exit` object reads as an empty
  list with no logic.
- **Malformed fields.** Rule fields of the wrong JavaScript type are not modelled, for
  example a non-numeric `value`. Unrecognised `type` strings are `Unknown` and
  unrecognised comparator strings are `Unrecognised`.
- **Non-numeric RSI readings.** An RSI reading of NaN is not modelled. `|| 50` maps
  NaN to 50 as well.
- **`buildUrl` inputs.** `Object.entries` order and `String(value)` are taken as given:
  the parameters arrive as a sequence of string pairs.
- **Backtest record fields.** `run`'s `status` and `completedAt` fields are not part
  of the report.
- **Other parts of the repository.** Market-data fetching (HTTP and random mock
  data), the AI strategy parser, the HTTP route handlers and their fallback rule
  document, storage, the database schema and the client UI are not part of this model.
- Routes.SubstitutionLength: the length change is proved only for values without `$`.
  A value containing `$&`, `` $` `` or `$'` expands to other text, which Expand models.
- Metrics.DrawdownAtMostHundred: the bound of 100 holds only for curves without
  negative samples. A Long sample is the unrealised profit and can be negative, as
  DrawdownCanExceedHundred shows.
- Rules.EntryHolds: its own contract states only what a condition needs in order to
  hold. The converse, that each condition holds exactly when its readings pass, is
  stated per condition type at the level of a bar by RsiConditionAt, MacdPositiveAt,
  MacdCrossAboveAt and SmaCrossAboveAt.
