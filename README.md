# Momentum backtests of the Quantitative Trading System, in Dafny

This project models the backtesting core of the Quantitative Trading System, a Python repository. That core has four parts:

- **Data preparation** (`quantlib/data_utils.py`, `quantlib/data.py`). It turns the index labels of a downloaded OHLCV table into dates. It keeps the open, high, low, close and volume columns of the traded instruments and forward-fills them. For each instrument it appends the percent return, the 25-day rolling volatility of that return, and an "active" flag, which says the close moved. Last, it back-fills the whole table.
- **Portfolio bookkeeping** (`quantlib/backtest_utils.py`):
  - currency conversion, keyed on an instrument name of the form `BASE_QUOTE`;
  - a day's pnl and nominal return;
  - the strategy scalar, which is recalibrated from the last 100 NaN-free rows of the portfolio table.
- **The long/short momentum strategy, LSMOM** (`subsystems/lsmom/subsys.py`):
  - It copies the table, adds each instrument's 14-period ADX and 21 EMA-crossover differences, and back-fills.
  - Each day it votes +1 or -1 per pair, gates the forecast on ADX ≥ 25, and drops instruments halted for five days.
  - It sizes positions by volatility targeting, then logs units, weights, nominal and leverage.
- **The long-biased momentum strategy, LBMOM** (`subsystems/lbmom/subsys.py`). It adds the same indicators, but in place on the caller's table and without back-filling. It counts only positive votes and prices every unit at its close.

The table is a class, `Frames.Frame`, with an index, an ordered column list and a map from column to cells. Its methods are the pandas operations the source uses: `copy`, `df[c] = v`, `concat`, `ffill` and `bfill`. Each is stated against functions on the column map. A cell is `Numerics.Float`, which is NaN or a real. Arithmetic propagates NaN, and comparisons with NaN are false.

The portfolio table is the class `BacktestUtils.Portfolio`, which holds one `Row` per simulated date. Both strategies' day loops are `Engine.RunDays`, a loop that rewrites row `i` in place. It is proved equal to the specification function `Engine.Simulation`. Lemmas state what the source promises about that function: capital compounding, the scalar's 101-day warm-up, sizing, weights summing to 1, and the sign of a position. The two strategies differ only through `Engine.Variant`.

The TA-Lib EMA and ADX, the pandas sample standard deviation and `np.sqrt(253)` are parameters (`Indicators.Toolkit`), not definitions. The JSON instrument configuration becomes the `instruments` field.

## Model

| member | source | states |
|---|---|---|
| Names.JoinSplit | quantlib/backtest_utils.py:69-70 | joining the pieces of `name.split("_")` with `_` gives the name back |
| Names.SplitShape | quantlib/backtest_utils.py:69-70 | a split has one more piece than the name has separators, and no piece contains one |
| Dates.ParseInt | quantlib/data_utils.py:71 | `int(x)` succeeds exactly on decimal digits with an optional sign |
| Dates.ParseDateText | quantlib/data_utils.py:71-72 | a label that parses yields a date that `datetime.date` accepts |
| Dates.RenderParses | quantlib/data_utils.py:71-72 | the text of a date, followed by a space and anything else, parses back to that date |
| DataUtils.FormatDate | quantlib/data_utils.py:65-72 | a formatted label is a valid calendar date |
| DataUtils.FormatDateReadsDates | quantlib/data_utils.py:65-72 | a date, or a timestamp printed as its date and time, formats to that date |
| DataUtils.FormatDateIdempotent | quantlib/data.py:46-48 | formatting a label that already formatted gives the same date |
| DataUtils.FormatIndex | quantlib/data_utils.py:83-85 | the index formats exactly when every label does, label by label in order; otherwise it fails with the error of the first bad label |
| DataUtils.SelectedMembers | quantlib/data_utils.py:87-97 | the selection holds exactly the five price columns of each traded instrument |
| DataUtils.SelectedDistinct | quantlib/data_utils.py:87-97 | with distinct instruments, no column is selected twice |
| DataUtils.Absent | quantlib/data_utils.py:95-97 | the columns `df[cols]` complains of are exactly the selected ones the table lacks |
| DataUtils.PctRetCompounds | quantlib/data_utils.py:105-109 | the percent return is a value exactly when both closes are and yesterday's is nonzero; today's close is then yesterday's times (1 + return) |
| DataUtils.ActiveMeansMoved | quantlib/data_utils.py:117-119 | the active flag is never NaN, and is false exactly when today's close is a value equal to yesterday's |
| DataUtils.RetVolStart | quantlib/data_utils.py:112-114 | the rolling volatility is NaN on the first 25 rows, and later is a value exactly when its 25 returns are |
| DataUtils.StatsDomain | quantlib/data_utils.py:103-119 | the statistics loop adds exactly the return, volatility and active columns of the instruments it has visited |
| DataUtils.StatsKeepsPrices | quantlib/data_utils.py:103-119 | the statistics loop leaves every price column as it was |
| DataUtils.StatsValues | quantlib/data_utils.py:103-119 | each instrument's three statistics are computed from its own close, whatever order the instruments are visited in |
| DataUtils.ExtendedKeys | quantlib/data_utils.py:94-122 | the extended table holds exactly the five price columns and the three statistics of each traded instrument |
| DataUtils.ExtendedPrices | quantlib/data_utils.py:94-122 | each price column is the downloaded one, forward-filled and then back-filled |
| DataUtils.ExtendedStats | quantlib/data_utils.py:100-122 | the statistics are computed from the forward-filled close and then back-filled; the active flag, which has no NaN, is not changed by the back-fill |
| DataUtils.ExtendedCloseHasNoGaps | quantlib/data_utils.py:100-122 | a close column holding at least one value has no NaN once extended |
| DataUtils.GapIsInactive | quantlib/data_utils.py:100-119 | a missing close reads as inactive exactly when some earlier close is a value |
| DataUtils.MissingCloseIsInactive | quantlib/data_utils.py:100-122 | in the extended table, a day whose downloaded close was missing is inactive exactly when an earlier close exists |
| DataUtils.AddStatistics | quantlib/data_utils.py:103-119 | appends each instrument's statistics columns, in order, with the values of the specification function |
| DataUtils.ExtendDataframe | quantlib/data_utils.py:77-123 | a bad label fails and leaves `df` as it was; a missing price column fails after `df`'s index is replaced; otherwise the result has the formatted index, the selected and statistics columns, and the extended values |
| Data.ExtendDataframe | quantlib/data.py:53-82 | the same three outcomes as `DataUtils.ExtendDataframe` |
| Frames.LastObsIsLastValue | quantlib/data_utils.py:100 | after `ffill` a cell is NaN exactly when nothing at or above it is a value; otherwise it is the nearest value above |
| Frames.NextObsIsNextValue | quantlib/data_utils.py:122 | after `bfill` a cell is NaN exactly when nothing at or below it is a value; otherwise it is the nearest value below |
| Frames.FillsCloseAllGaps | quantlib/data_utils.py:100-122 | forward- then back-filling a column that holds any value leaves no NaN |
| Frames.Frame.Copy | subsystems/lsmom/subsys.py:55 | a new table with the same index, columns and cells |
| Frames.Frame.SetColumn | subsystems/lbmom/subsys.py:62-76 | `df[c] = v` replaces a present column where it stands, and appends a new one |
| Frames.Frame.Concat | subsystems/lsmom/subsys.py:85-87 | a new table with the new columns appended, in order |
| Frames.Frame.FillBackward | subsystems/lsmom/subsys.py:101 | back-fills every column in place |
| BacktestUtils.DenomReadsName | quantlib/backtest_utils.py:69-70 | a name is a currency pair exactly when it holds one `_`, and it is then base `_` quote |
| BacktestUtils.UnitValChangeDispatch | quantlib/backtest_utils.py:68-80 | a change is kept for a plain name or a USD-quoted pair, and multiplied by the quote's USD close otherwise |
| BacktestUtils.UnitValChangeLinear | quantlib/backtest_utils.py:68-80 | the conversion is additive and scales with the change |
| BacktestUtils.UnitDollarValueDispatch | quantlib/backtest_utils.py:84-106 | a unit is worth its close for a plain name, 1 for a USD-based pair, its close for a USD-quoted pair, and its close times the quote's USD close otherwise |
| BacktestUtils.EurUsdWorthClose | quantlib/backtest_utils.py:93-106 | `EUR_USD` is worth its close |
| BacktestUtils.UsdJpyWorthOne | quantlib/backtest_utils.py:90-92 | `USD_JPY` is worth 1 |
| BacktestUtils.PricedFinds | quantlib/backtest_utils.py:68-106 | with every close and conversion column present, neither function raises |
| BacktestUtils.Portfolio.constructor | subsystems/lsmom/subsys.py:104-107 | one blank row per simulated date, with capital 10000 on the first |
| BacktestUtils.FlatBookEarnsNothing | quantlib/backtest_utils.py:14-35 | a day with no previous holdings has zero pnl and zero nominal return |
| BacktestUtils.PnlTermsHeld | quantlib/backtest_utils.py:17-30 | instrument `k`'s pnl term is its previous units times the converted price change when it was held, and 0 otherwise |
| BacktestUtils.RetTermsHeld | quantlib/backtest_utils.py:17-35 | instrument `k`'s return term is its previous weight times today's return when it was held, and 0 otherwise |
| BacktestUtils.DayPnlSumsHeld | quantlib/backtest_utils.py:17-31 | the accumulated `day_pnl` equals the sum of the pnl terms |
| BacktestUtils.NominalRetSumsHeld | quantlib/backtest_utils.py:17-35 | the accumulated `nominal_ret` equals the sum of the return terms |
| BacktestUtils.GetBacktestDayStats | quantlib/backtest_utils.py:4-43 | writes capital, daily pnl, nominal return and capital return to row `idx` only, and returns the pnl |
| BacktestUtils.StratScalarSwitch | quantlib/backtest_utils.py:46-64 | the scalar keeps its default exactly while fewer than `lookback` NaN-free rows exist up to `idx`; otherwise it is the window's mean scalar times the target over the annualised volatility |
| BacktestUtils.CurrentRowDropped | quantlib/backtest_utils.py:54-57 | a row whose scalar is not yet logged is dropped by `dropna` and so never enters the window |
| BacktestUtils.CleanCount | quantlib/backtest_utils.py:54 | `dropna` keeps exactly the NaN-free rows |
| BacktestUtils.StratScalarPositive | quantlib/backtest_utils.py:58-62 | with positive history scalars, target and volatility, the recalibrated scalar is positive |
| Engine.VoteBuckets | subsystems/lsmom/subsys.py:155-169 | every pair is up, down or neutral, exactly once |
| Engine.ForecastBounds | subsystems/lsmom/subsys.py:155-175 | the long/short forecast lies in [-1, 1], and the long-only one in [0, 1] |
| Engine.ForecastGate | subsystems/lsmom/subsys.py:170-175 | with ADX below 25 the forecast is 0; otherwise it is the votes over 21 |
| Engine.NoTrendNoForecast | subsystems/lbmom/subsys.py:142-152 | with no nonzero EMA difference, no vote is cast and the forecast is 0 |
| Engine.TradableMembers | subsystems/lsmom/subsys.py:110-128 | the tradable list holds exactly the instruments that are not halted, in configuration order |
| Engine.HaltedMembers | subsystems/lsmom/subsys.py:110-129 | the non-tradable list holds exactly the halted instruments, in configuration order |
| Engine.TradablePartition | subsystems/lsmom/subsys.py:128-129 | the two lists cover the universe, and no instrument is in both |
| Engine.PositionSign | subsystems/lsmom/subsys.py:177-198 | with positive capital, scalar, target and dollar volatility, a position has its forecast's sign; a long-only position is never short |
| Engine.WeightsSumToOne | subsystems/lsmom/subsys.py:204-211 | with a positive nominal total, the weights are finite and nonnegative and add up to 1 |
| Engine.FirstRow | subsystems/lsmom/subsys.py:104-125 | the first row has the first date on or after the start, capital 10000 and scalar 2, and is never NaN-free |
| Engine.CapitalRecurrence | subsystems/lsmom/subsys.py:134-138 | from row 1 on, capital is yesterday's plus the day's pnl; the pnl and nominal return are sums over the held instruments; capital return is nominal return times yesterday's leverage |
| Engine.DaySizing | subsystems/lsmom/subsys.py:148-219 | each row's units are sized from that row's capital and scalar, with weights, nominal and leverage to match; a halted instrument holds no units and has weight 0 |
| Engine.DayScalarFromHistory | subsystems/lsmom/subsys.py:134-143 | a later row's scalar is 2 until 100 earlier rows are NaN-free, and after that is recalibrated from the last 100 of them |
| Engine.ScalarDefaultEarly | subsystems/lsmom/subsys.py:125-143 | the scalar is 2 on each of the first 101 rows |
| Engine.ScalarOverRun | subsystems/lsmom/subsys.py:134-143 | from row 1 on, the scalar is recalibrated exactly when 100 finished rows are NaN-free, from the last 100 of them |
| Engine.ZeroHalted | subsystems/lsmom/subsys.py:148-150 | a halted instrument gets units and weight 0, and every other instrument keeps its own |
| Engine.SizePositions | subsystems/lsmom/subsys.py:152-202 | the loop sizes every tradable instrument and accumulates `nominal_total` as the specification says |
| Engine.Weigh | subsystems/lsmom/subsys.py:204-211 | each tradable instrument's weight is its notional over the total |
| Engine.SimulateDay | subsystems/lsmom/subsys.py:123-219 | one pass of the loop body rewrites row `i` only, and sets it to the specified day row |
| Engine.RunDays | subsystems/lsmom/subsys.py:123-224 | after the loop the portfolio table is the simulation |
| Engine.StartRow | subsystems/lsmom/subsys.py:104-106 | the start row is the first label on or after the start date, or the end of the index when no label is |
| Engine.StartRowSlices | subsystems/lsmom/subsys.py:104-106 | on a chronological index, the slice from the start row holds exactly the dates on or after the start |
| Engine.Simulate | subsystems/lsmom/subsys.py:104-224 | a missing column or an empty range fails; otherwise the result is a new portfolio table equal to the simulation |
| Indicators.EmaColsDistinct | subsystems/lsmom/subsys.py:24-46 | no period pair is listed twice, so no EMA column name repeats |
| Indicators.IndicatorColsMembers | subsystems/lsmom/subsys.py:57-87 | the added names are exactly the ADX and EMA columns of the visited instruments |
| Indicators.IndicatorColsDistinct | subsystems/lsmom/subsys.py:57-87 | with distinct instruments, no indicator column is added twice |
| Indicators.IndicatorsDomain | subsystems/lsmom/subsys.py:57-89 | the indicators add exactly the indicator columns of the visited instruments |
| Indicators.IndicatorsKeepOthers | subsystems/lsmom/subsys.py:57-89 | columns that are not indicators, prices included, keep their values |
| Indicators.IndicatorsValues | subsystems/lsmom/subsys.py:57-89 | each ADX column is the ADX of the instrument's own prices, and each EMA column is its fast EMA minus its slow EMA |
| Lsmom.Lsmom.constructor | subsystems/lsmom/subsys.py:23-52 | keeps the configuration and names the strategy `LSMOM` |
| Lsmom.Lsmom.ExtendHistoricals | subsystems/lsmom/subsys.py:54-89 | a new table whose columns are the originals followed by each instrument's ADX and EMA columns, with the indicator values; the argument is not changed |
| Lsmom.Lsmom.AddIndicators | subsystems/lsmom/subsys.py:57-87 | one instrument's ADX column set, then its EMA columns concatenated on |
| Lsmom.Lsmom.EmaDifferences | subsystems/lsmom/subsys.py:67-76 | the list holds fast minus slow EMA for each of the 21 pairs, in order |
| Lsmom.NewIndicatorCols | subsystems/lsmom/subsys.py:57-87 | before an instrument's turn none of its indicator columns exists, so the concatenation adds no duplicates |
| Lsmom.Lsmom.RunSimulation | subsystems/lsmom/subsys.py:91-224 | missing prices fail; otherwise it runs the long/short loop on the extended, back-filled table from the start date, and returns the instruments with it |
| Lsmom.Lsmom.GetSubsysPos | subsystems/lsmom/subsys.py:226-230 | the simulation on the strategy's own table, and the instruments |
| Lbmom.Lbmom.constructor | subsystems/lbmom/subsys.py:21-52 | keeps the configuration and names the strategy `LBMOM` |
| Lbmom.Lbmom.ExtendHistoricals | subsystems/lbmom/subsys.py:55-77 | sets the indicators on the argument itself and returns it: same index, columns added in place, the indicator values |
| Lbmom.Lbmom.AddIndicators | subsystems/lbmom/subsys.py:60-76 | instrument `i`'s turn takes the table from the first `i` instruments' indicators to the first `i + 1` |
| Lbmom.Lbmom.SetEmaColumns | subsystems/lbmom/subsys.py:69-76 | sets one EMA-difference column per pair, in pair order |
| Lbmom.PricesKept | subsystems/lbmom/subsys.py:60-67 | the prices read on an instrument's turn are still the original ones |
| Lbmom.InPlaceAppends | subsystems/lbmom/subsys.py:55-77 | on a table without indicator columns, the in-place columns are appended in the order the long/short concatenation gives |
| Lbmom.Lbmom.RunSimulation | subsystems/lbmom/subsys.py:79-202 | extends the caller's table in place and runs the long-only loop without back-filling; this corrected loop logs the scalar on every row, with the value `Engine.DayScalarFromHistory` and `Engine.ScalarOverRun` state |
| Lbmom.Unpack | pull_sp500.py:29 | unpacking succeeds exactly on a pair |
| Lbmom.Lbmom.GetSubsysPosAsWritten | subsystems/lbmom/subsys.py:204-205 | extends the strategy's own table in place (indicator columns added, or the table untouched when a price column is missing), runs the simulation and returns `None`, which does not unpack |
| Lbmom.Lbmom.GetSubsysPos | subsystems/lbmom/subsys.py:204-205 | extends the strategy's own table in place as the as-written method does, and returns the simulation's table with the instruments, which unpacks |
| Lbmom.EachWritesOnly | subsystems/lbmom/subsys.py:135-137 | a loop over instrument positions writes only the columns of the instruments it visits |
| Lbmom.EachWritesAll | subsystems/lbmom/subsys.py:135-137 | a loop over instrument positions writes every column of every instrument it visits |
| Lbmom.DayWithin | subsystems/lbmom/subsys.py:112-201 | one pass of the loop body writes only day statistics, the scalar if logged, units and weights of the universe, nominal and leverage |
| Lbmom.DayCovers | subsystems/lbmom/subsys.py:135-201 | when every instrument is halted or tradable, one pass writes the units and weight of each, then nominal and leverage |
| Lbmom.BodyLogged | subsystems/lbmom/subsys.py:112-201 | with the row's own halted and tradable lists, the body's writes lie within, and cover all but the statistics of, the logged columns |
| Lbmom.ScalarColumns | subsystems/lbmom/subsys.py:89-130 | on every row after the first, the table `get_strat_scalar` sees holds exactly the date, capital, the four day statistics, every instrument's units and weight, nominal, leverage, and `strat scalar` only if the body logs it |
| Lbmom.ScalarLookup | quantlib/backtest_utils.py:54-57 | the lookup succeeds exactly when both `capital ret` and `strat scalar` exist, and raises on `strat scalar` exactly when only it is missing |
| Lbmom.ScalarLookupFailsAsWritten | subsystems/lbmom/subsys.py:123-130 | with the loop body as written, whose writes never include `strat scalar`, the scalar lookup on every row after the first raises KeyError on `strat scalar` |
| Lbmom.ScalarLookupSucceedsWhenLogged | subsystems/lsmom/subsys.py:134-143 | with a loop body that logs the scalar, the lookup on every row after the first succeeds |

## Left out

- Downloading, Excel and CSV output, the OANDA trade client and the driver scripts are not modelled. They are I/O.
- JSON configuration files are not read. The instrument list is a field of each strategy.
- The `debug` print at the end of each LSMOM day is not modelled. It is output only.
- `talib.EMA`, `talib.ADX`, `Series.std()` and `np.sqrt(253)` are abstract parameters. They are foreign numerical code.
- IEEE rounding is not modelled: cells are exact reals. Infinities, such as a nonzero amount divided by zero, are also NaN here.
- Dates.ParseInt: accepts only an optional sign and ASCII digits. Python's `int` also takes surrounding whitespace, underscores and non-ASCII digits, which dates never contain.
- The sorted index is an assumption, not checked: Engine.StartRowSlices assumes a chronological index, as downloaded tables have. Duplicate index labels are not modelled.
- Distinct instruments are an assumption: the run requires each instrument once, since duplicated pandas column names are not modelled.
- Lsmom.Lsmom.ExtendHistoricals: requires a table without indicator columns. A second extension would give pandas duplicate column names, which the model has no form for. Reusing the table that LBMOM has already extended in place would do exactly that.
- Engine.Simulate: before the first day, checks every column the loop may read for every instrument: close and conversion rates, return volatility, activity flag, ADX and the 21 EMA differences. It fails with `MissingColumns` if any is absent. The source raises KeyError only at the first actual read, after writing earlier rows. It never reads the ADX, EMA or volatility columns of an instrument that is halted on every simulated day.
- Engine.Simulate: an empty simulation range is the `EmptyRange` failure. The source enlarges the empty table to one row without a date. Its loop then fails on that row's lookups, unless there are no instruments.
- Lbmom.Lbmom.RunSimulation: checks the price columns before writing any indicator. The source raises at the first instrument missing one, after setting the earlier instruments' columns in place.
- Engine.WeightsSumToOne: stated only for a positive nominal total. The division at subsystems/lsmom/subsys.py:210 is unguarded, and a zero total gives NaN weights (Engine.ZeroTotalWeights).
- The active flags are booleans. The model stores them as 1 and 0, so the halted test's `~` becomes "every flag of the window is 0". The flags are never NaN after extension (DataUtils.ActiveMeansMoved).
- `fx_codes`, the parameter of `quantlib/data_utils.py:77` that is never used, is dropped. `quantlib/data.py:46-82` repeats the same two functions, so `Data.ExtendDataframe` delegates to `DataUtils`.
- `extend_dataframe` of `quantlib/data_utils.py:77` first assigns the formatted index to `df`. The model updates `df.index` the same way, in place.
- The LSMOM bookkeeping and the LBMOM bookkeeping share `Engine`. LBMOM differs in voting only up, taking the close as a unit's dollar value, taking close × volatility as its dollar volatility with no FX conversion, and not back-filling.

## Findings

| source | as written | input that shows it | evidently intended | confidence | as-written member | corrected member |
|---|---|---|---|---|---|---|
| subsystems/lbmom/subsys.py:123-143 | the loop never logs `strat scalar`, yet `get_strat_scalar` selects that column from row 1 on | any run of two or more days: on row 1 `portfolio_df.loc[:1].dropna()...["strat scalar"]` raises KeyError | log the scalar on every row, as subsystems/lsmom/subsys.py:143 does | high, not executed | Lbmom.ScalarLookupFailsAsWritten | Lbmom.Lbmom.RunSimulation |
| subsystems/lbmom/subsys.py:204-205 | `get_subsys_pos` runs the simulation and returns nothing | pull_sp500.py:29 unpacks the result into two names and raises TypeError on `None` | return `(portfolio_df, instruments)`, as subsystems/lsmom/subsys.py:226-230 does | high, not executed | Lbmom.Lbmom.GetSubsysPosAsWritten | Lbmom.Lbmom.GetSubsysPos |
