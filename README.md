# Crypto market-data analytics, modelled in Dafny

This project models the analytical core of a set of C++ market-data tools:

- **Liquidity analyzer** (`LiquidityAnalyzer`). It keeps a bounded trade history, a matching price history and the
  current order book. From these it computes:
  - spread, depth, imbalance, VWAP, slippage and book slopes;
  - realized volatility, 95% value at risk, expected shortfall and historical volatility;
  - Kyle's lambda (the regression slope of log returns on signed volumes);
  - Amihud's illiquidity measure (the mean over days of absolute return per traded value).
- **Trade anomaly monitor** (`MyEventHandler` in the trades tool). It keeps a 50-trade window, an EWMA variance of
  log returns and adaptive percentile thresholds, and flags price, size and volatility anomalies on every trade.
- **Arbitrage monitor** (`ArbitrageMonitor`). It keeps the latest Binance and Bybit top-of-book quotes and compares
  them after every update.
- **Configuration text handling** (`SimpleConfig`, `RovoConfig::resolveConfigPathFromArgs`):
  - trimming;
  - `key=value` line parsing;
  - lookups;
  - locating the config file from argv.

Objects whose fields the C++ code updates are Dafny classes with the same fields: `LiquidityAnalyzer`,
`EventHandler`, `ArbitrageMonitor` and `SimpleConfig`. Their methods keep the source's loops. Each method is proved
equal to a specification function, and the properties are lemmas about those functions.

Numbers are `real`. The following are parameters:
- `std::log`, as `logRatio(p, q)`, which stands for ln(p/q);
- `std::sqrt`, as `sqrt`;
- the wall clock, as `now`.

`Trade` and `Level` are subset types. They hold exactly the values the C++ constructors accept, and
`MakeTrade`/`MakeLevel` return the constructors' error path as a `Result`. The order-book parser writes `price` and
`size` field by field, past the constructor's check (src/liquidity_analyzer.cpp:844-867), so `UpdateOrderBook` takes
raw `LevelRecord`s, possibly negative, and its filter yields `Level`s.

Kyle's lambda takes a consecutive pair as soon as its *later* trade is inside the window
(src/liquidity_analyzer.cpp:281-284). Two recent trades plus one older trade therefore give two observations, not
one; `MarketImpact.KyleCountsPairStartingOutsideWindow` states this.

## Model

| member | source | states |
|---|---|---|
| LiquidityTypes.MakeTrade | src/liquidity_analyzer.cpp:57-65 | a trade exists iff price and amount are positive; cost = price·amount; other fields copied; otherwise the constructor's error message |
| OrderBook.MakeLevel | src/liquidity_analyzer.cpp:73-78 | a level exists iff price and size are non-negative; fields copied |
| Window.PushKeepsNewest | src/liquidity_analyzer.cpp:217-225 | push-then-evict-one keeps exactly the newest `capacity` elements of history + [x] |
| Window.PushAllKeepsNewest | src/liquidity_analyzer.cpp:217-225 | any sequence of pushes keeps the newest `capacity` elements and never exceeds the capacity |
| Window.PushMap | src/liquidity_analyzer.cpp:217-225 | pushing a trade and pushing its price commute with projecting trades to prices (the two histories stay aligned) |
| Liquidity.LiquidityAnalyzer.constructor | src/liquidity_analyzer.cpp:198-212 | starts with empty histories and an empty book |
| Liquidity.LiquidityAnalyzer.AddTrade | src/liquidity_analyzer.cpp:214-226 | history becomes the newest 10000 of old history + [trade]; price history stays the prices of the trade history; book unchanged |
| OrderBook.Filter | src/liquidity_analyzer.cpp:235-248 | never more levels than given, and every kept level has positive price and size |
| OrderBook.FilterCounts | src/liquidity_analyzer.cpp:235-248 | keeps exactly the levels with positive price and size, with their multiplicities |
| OrderBook.RemoveDead | src/liquidity_analyzer.cpp:235-248 | the remove_if loop computes Filter |
| Liquidity.SortSide | src/liquidity_analyzer.cpp:250-259 | result is sorted by the key and is a permutation of the input |
| Sorting.SortByKey | src/liquidity_analyzer.cpp:250-259 | in-place array sort: sorted by key and a permutation of the old contents |
| Liquidity.LiquidityAnalyzer.UpdateOrderBook | src/liquidity_analyzer.cpp:228-260 | each side is a permutation of the live levels of its input, bids highest first, asks lowest first; histories unchanged |
| Regression.LinearRegression | src/liquidity_analyzer.cpp:641-662 | loop computes Slope; 0 for mismatched lengths or fewer than 2 points |
| Regression.SlopeOfConstantX | src/liquidity_analyzer.cpp:658-661 | zero denominator (constant x) gives slope 0 |
| Regression.SlopeOfConstantY | src/liquidity_analyzer.cpp:641-662 | constant y gives slope 0 |
| Regression.SlopeOfExactLine | src/liquidity_analyzer.cpp:641-662 | points on y = a + b·x with two distinct x give slope b exactly |
| OrderBook.CalculateVwap | src/liquidity_analyzer.cpp:665-687 | loop computes Vwap; 0 on an empty side or a non-positive target |
| OrderBook.WalkVolume | src/liquidity_analyzer.cpp:674-684 | the volume consumed is min(target, total size of the side) |
| OrderBook.VwapWithinReached | src/liquidity_analyzer.cpp:665-687 | VWAP lies within any bounds on the prices of the levels the walk reaches (less than the target in front of them), whatever lies deeper |
| OrderBook.VwapWithinConsumed | src/liquidity_analyzer.cpp:665-687 | when the first k levels cover the target (or are the whole side), VWAP lies between the lowest and highest price of those k levels |
| OrderBook.VwapBounds | src/liquidity_analyzer.cpp:665-687 | corollary: VWAP lies between any lower and upper bound on all of the side's prices |
| OrderBook.VwapWithinFirstLevel | src/liquidity_analyzer.cpp:665-687 | a target the best level covers gives that level's price |
| OrderBook.VwapPositive | src/liquidity_analyzer.cpp:665-687 | on live levels with positive target, VWAP is at least the lowest price, hence positive |
| OrderBook.SideDepth | src/liquidity_analyzer.cpp:469-483 | depth loop sums the sizes of the first min(depth, n) levels (a negative depth wraps to all levels) |
| OrderBook.CalculateOrderBookSlope | src/liquidity_analyzer.cpp:690-708 | loop computes BookSlope over cumulative sizes and prices; 0 with fewer than 2 levels in depth |
| OrderBook.FlatBookSlope | src/liquidity_analyzer.cpp:690-708 | all levels at one price give slope 0 |
| OrderBook.CumulativeSizes | src/liquidity_analyzer.cpp:699-705 | entry i is the total size of the first i+1 levels |
| BookMetrics.Imbalance | src/liquidity_analyzer.cpp:485-489 | imbalance is in [-1, 1], 0 iff depths are equal, positive iff bids are deeper |
| BookMetrics.EmptySideLeavesMetrics | src/liquidity_analyzer.cpp:454-456 | an empty side leaves the metrics untouched |
| BookMetrics.AnalyzeBookFacts | src/liquidity_analyzer.cpp:450-507 | on a well-formed book: spread = best ask − best bid, imbalance in [-1, 1], bid VWAP ≤ best bid, ask VWAP ≥ best ask, both slippages ≥ 0 |
| BookMetrics.BidSlippageNonNegative | src/liquidity_analyzer.cpp:495-498 | with bids best-first, 0 < bid VWAP ≤ best bid and bid slippage ≥ 0 |
| BookMetrics.AskSlippageNonNegative | src/liquidity_analyzer.cpp:500-503 | with asks best-first, best ask ≤ ask VWAP and ask slippage ≥ 0 |
| BookMetrics.ImbalanceInRange | src/liquidity_analyzer.cpp:485-489 | analysis preserves "imbalance, if present, is in [-1, 1]" |
| BookMetrics.WorkedExample | src/liquidity_analyzer.cpp:450-507 | book 100×2, 99×5 / 101×3, 102×4: spread 1, depths 7 and 7, imbalance 0, VWAPs 100 and 101 |
| Liquidity.LiquidityAnalyzer.AnalyzeOrderBookLiquidity | src/liquidity_analyzer.cpp:450-508 | computes AnalyzeBook on the current book |
| Risk.ComputeReturns | src/liquidity_analyzer.cpp:379-387 | loop computes Returns: log returns of consecutive pairs with both prices positive |
| Risk.Returns | src/liquidity_analyzer.cpp:379-387 | on positive prices there are n−1 returns, the i-th being log(p[i+1]/p[i]) |
| Risk.ComputeSampleVariance | src/liquidity_analyzer.cpp:393-402 | the mean-then-squared-deviations loop is the sample variance, which is ≥ 0 |
| Risk.VarIndex | src/liquidity_analyzer.cpp:412-414 | index is ceil(5% of n) clamped to n−1; 0 iff n = 1 |
| Risk.HistoryWindow | src/liquidity_analyzer.cpp:430 | window is min(30, n) |
| Risk.RiskNeedsTwoPrices | src/liquidity_analyzer.cpp:375-391 | fewer than two prices, or no usable return, changes no metric |
| Risk.RiskMetricsFacts | src/liquidity_analyzer.cpp:372-446 | VaR is the VarIndex-th smallest return ×100; with ≥ 2 returns expected shortfall ≤ VaR and historical volatility is set; with 1 return neither changes |
| Risk.ShortfallBelowVar | src/liquidity_analyzer.cpp:420-427 | the mean of the sorted returns below index k is at most the k-th |
| Liquidity.SortedTail | src/liquidity_analyzer.cpp:410-414 | sorts a copy of the returns and computes the VaR index |
| Liquidity.ExpectedShortfall | src/liquidity_analyzer.cpp:421-427 | loop computes the mean of the first k sorted returns ×100, or leaves the old value when k = 0 |
| Liquidity.HistoricalVolatility | src/liquidity_analyzer.cpp:429-446 | annualized sample variance of the last min(30, n) returns, only when that window exceeds 1 |
| Liquidity.LiquidityAnalyzer.CalculateRiskMetrics | src/liquidity_analyzer.cpp:372-446 | computes RiskMetrics over the price history |
| MarketImpact.SideSign | src/liquidity_analyzer.cpp:295-298 | +1 iff "buy", −1 iff "sell", 0 otherwise |
| MarketImpact.KylePairWindow | src/liquidity_analyzer.cpp:282-292 | a pair contributes iff its later trade is within the window and |log return| < 1 |
| MarketImpact.KyleStep | src/liquidity_analyzer.cpp:277-305 | extending the history by one trade appends exactly that pair's observation, if any |
| Liquidity.PairObservation | src/liquidity_analyzer.cpp:282-302 | loop body computes KylePair |
| Liquidity.LiquidityAnalyzer.CalculateKylesLambda | src/liquidity_analyzer.cpp:263-309 | computes KyleLambda: regression slope of the collected log returns on signed volumes |
| MarketImpact.KyleNeedsThreeTrades | src/liquidity_analyzer.cpp:266-268 | at most two trades give lambda 0 |
| MarketImpact.KyleWithoutDirection | src/liquidity_analyzer.cpp:295-300 | trades with neither side give lambda 0 (all signed volumes are 0) |
| MarketImpact.KyleCountsPairStartingOutsideWindow | src/liquidity_analyzer.cpp:281-284 | three trades, the oldest outside the window, still give two observations |
| MarketImpact.TruncDiv | src/liquidity_analyzer.cpp:336-337 | C++ truncating division: the remainder a − q·b lies in [0, b) for a ≥ 0 and in (−b, 0] for a < 0, so q rounds toward zero |
| MarketImpact.AmihudPair | src/liquidity_analyzer.cpp:332-348 | a same-day in-period pair contributes a non-negative return and a positive traded value |
| MarketImpact.AddToDay | src/liquidity_analyzer.cpp:345-346 | accumulates into that day's totals and leaves other days untouched |
| MarketImpact.DailyStep | src/liquidity_analyzer.cpp:328-349 | extending the history by one trade records exactly that pair's contribution |
| Liquidity.PairContribution | src/liquidity_analyzer.cpp:329-348 | loop body computes AmihudPair |
| Liquidity.SumDayRatios | src/liquidity_analyzer.cpp:355-366 | loop over days in ascending order computes the ratio sum and the valid-day count |
| MarketImpact.AllDaysValid | src/liquidity_analyzer.cpp:358-366 | every recorded day has positive volume, so every day counts |
| MarketImpact.AmihudNonNegative | src/liquidity_analyzer.cpp:312-369 | the measure is ≥ 0, and 0 with fewer than two trades or no recorded day |
| MarketImpact.AmihudIgnoresCrossDayPairs | src/liquidity_analyzer.cpp:336-339 | if no consecutive pair falls on one day, the measure is 0 |
| Liquidity.LiquidityAnalyzer.CalculateAmihudMeasure | src/liquidity_analyzer.cpp:312-369 | computes Amihud over the trade history; result ≥ 0 |
| Liquidity.LiquidityAnalyzer.PerformComprehensiveAnalysis | src/liquidity_analyzer.cpp:511-530 | risk, then book (depth 10, volume 1), Kyle daily/hourly, Amihud 1/30/90 days |
| Liquidity.ComprehensiveFacts | src/liquidity_analyzer.cpp:511-530 | all three Amihud measures ≥ 0; both Kyle lambdas 0 with at most two trades |
| Liquidity.LiquidityAnalyzer.GetTradeHistorySize | src/liquidity_analyzer.cpp:633-636 | size equals both history lengths and is at most 10000 |
| Sorting.SortAsc | src/liquidity_analyzer.cpp:410-411 | ascending permutation of the input |
| Sorting.AscendingUnique | src/liquidity_analyzer.cpp:410-411 | two ascending permutations of the same values are equal, so any sort gives SortAsc |
| Sorting.SortReals | src/trades.cpp:294-308 | in-place sort of an array of reals yields SortAsc of its old contents |
| TradeMonitor.EventHandler.constructor | src/trades.cpp:28-51 | empty window, count 0, thresholds 1.0 and 100.0, EWMA not initialised |
| TradeMonitor.EventHandler.OnTrade | src/trades.cpp:84-108 | window = newest 50 of old window + [trade]; count +1; EWMA step; thresholds recomputed from the new window once it has 10 trades; detectors run on the new state |
| TradeMonitor.EventHandler.UpdateEwmaVolatility | src/trades.cpp:251-270 | first price seeds variance 0.0001; later ones apply λ·v + (1−λ)·r² with λ = 0.92; previous price updated |
| TradeMonitor.EwmaStepBounds | src/trades.cpp:264-265 | the EWMA step is ≥ 0 and lies between the old variance and r² |
| TradeMonitor.EventHandler.GetEwmaVolatility | src/trades.cpp:272-277 | 0 before initialisation, √variance after |
| TradeMonitor.EventHandler.UpdateAdaptiveThresholds | src/trades.cpp:278-309 | below 10 trades nothing changes; otherwise both thresholds are recomputed from the window; the floors 1.0 and 10.0 are kept |
| TradeMonitor.ComputeLargeTradeThreshold | src/trades.cpp:285-300 | collect, sort and index the volumes: LargeTradeThreshold |
| TradeMonitor.ComputePriceMovementThreshold | src/trades.cpp:289-308 | collect, sort and index the price changes: PriceMovementThreshold |
| TradeMonitor.Percentile90 | src/trades.cpp:297-299 | index floor(0.9·n) clamped to n−1 |
| TradeMonitor.Percentile95 | src/trades.cpp:305-307 | index floor(0.95·m) clamped to m−1 |
| TradeMonitor.ThresholdsComeFromWindow | src/trades.cpp:294-308 | each threshold is at least its floor and is either the floor or a value from the window |
| TradeMonitor.LargeTradeThresholdCoversPercentile | src/trades.cpp:294-300 | the size threshold is at least every sorted volume up to the 90th-percentile index |
| TradeMonitor.PriceChanges | src/trades.cpp:289-292 | no changes for fewer than two trades, otherwise one per consecutive pair |
| TradeMonitor.PriceChangesAt | src/trades.cpp:289-292 | change i is the absolute move from trade i to trade i + 1 |
| TradeMonitor.CollectVolumes | src/trades.cpp:285-287 | the volumes of the window, in order |
| TradeMonitor.CollectPriceChanges | src/trades.cpp:289-292 | loop computes PriceChanges |
| TradeMonitor.EventHandler.DetectPriceAnomaly | src/trades.cpp:156-177 | computes PriceAnomaly on the window and the current threshold |
| TradeMonitor.FlatPricesAreQuiet | src/trades.cpp:161-165 | a window of equal prices never flags a price anomaly |
| TradeMonitor.ComparesWithPreviousTrade | src/trades.cpp:168 | after a push, the element at size−2 is the previous newest trade |
| TradeMonitor.EventHandler.DetectSizeAnomaly | src/trades.cpp:180-198 | computes SizeAnomaly on the window and the current threshold |
| TradeMonitor.EarlySizeTest | src/trades.cpp:181-184 | below 10 trades the size test is exactly volume > threshold |
| TradeMonitor.EventHandler.DetectVolatilityAnomaly | src/trades.cpp:201-208 | computes VolatilityAnomaly from the EWMA state |
| TradeMonitor.VolatilityTestBySquare | src/trades.cpp:206-207 | √v > 0.02 iff v > 0.0004 |
| TradeMonitor.SeedIsQuiet | src/trades.cpp:255 | the seed variance 0.0001 never flags a volatility anomaly |
| TradeMonitor.CalculateAverageTradeSize | src/trades.cpp:211-221 | loop computes the mean volume, 0 on an empty window |
| TradeMonitor.CalculateAveragePriceDeviation | src/trades.cpp:224-235 | loop computes the mean absolute price change, 0 below two trades; ≥ 0 |
| TradeMonitor.CalculateAveragePrice | src/trades.cpp:238-248 | loop computes the mean price, 0 on an empty window |
| Arbitrage.ArbitrageMonitor.constructor | src/arbitrage.cpp:16-30 | both exchanges empty, min diff 1.0, profit threshold 0.5 |
| Arbitrage.ArbitrageMonitor.SetConfig | src/arbitrage.cpp:33-36 | replaces both thresholds and nothing else |
| Arbitrage.ReadQuotes | src/arbitrage.cpp:168-184 | element loop computes ApplyElements and reports whether any element carried a price |
| Arbitrage.NoPriceNoChange | src/arbitrage.cpp:186-190 | a message without BID_PRICE or ASK_PRICE leaves the quote as it was |
| Arbitrage.PriceMarksData | src/arbitrage.cpp:186-190 | a message with a price marks the exchange as having data, stamped with the clock |
| Arbitrage.VolumeOnlyWithPrice | src/arbitrage.cpp:170-182 | a stored volume changes only through an element carrying that side's price and size |
| Arbitrage.ArbitrageMonitor.UpdateBinanceData | src/arbitrage.cpp:167-191 | Binance quote becomes ApplyMessage of the elements; Bybit and thresholds untouched; a comparison only when a price arrived |
| Arbitrage.ArbitrageMonitor.UpdateBybitData | src/arbitrage.cpp:193-217 | the same with the exchanges swapped |
| Arbitrage.Choose | src/arbitrage.cpp:106-119 | Buy_Bybit iff arb1 > threshold and arb1 > arb2; else Buy_Binance iff arb2 > threshold; else None with profit 0 |
| Arbitrage.ChooseTakesLargerSpread | src/arbitrage.cpp:106-119 | a direction is reported iff the larger spread exceeds the threshold, and the profit is that larger spread |
| Arbitrage.Decide | src/arbitrage.cpp:89-119 | a row only when both exchanges have data; flags iff the absolute diff ≥ min diff; a reported direction has profit > threshold |
| Arbitrage.SameQuotesReportSpread | src/arbitrage.cpp:110-118 | identical quotes whose bid/ask spread exceeds the threshold still report Buy_Binance with profit ask − bid |
| Arbitrage.ArbitrageMonitor.CalculateAndPrint | src/arbitrage.cpp:89-119 | computes Decide on the stored quotes and thresholds |
| Config.Trim | include/simple_config.h:86-92 | find_first_not_of / find_last_not_of loops compute Trimmed |
| Config.TrimmedEmptyIff | include/simple_config.h:86-89 | the result is empty iff the input is all " \t\r\n" |
| Config.TrimmedShape | include/simple_config.h:86-92 | a non-empty result has non-whitespace ends and is a substring with only whitespace cut around it |
| Config.TrimmedIdempotent | include/simple_config.h:86-92 | trimming twice equals trimming once |
| Config.Find | include/simple_config.h:19 | the first '=' index, or none iff there is no '=' |
| Config.ReadLine | include/simple_config.h:16-25 | loop body computes ParseLine |
| Config.ParseLineSkips | include/simple_config.h:17-25 | blank, '#' and '='-less lines store nothing; stored keys are non-empty and contain no '=' |
| Config.ParsedIsTrimmed | include/simple_config.h:21-24 | keys and values come out trimmed |
| Config.ParseLineRoundTrip | include/simple_config.h:17-25 | a trimmed key (no '=', not starting with '#') and a trimmed value written as key=value parse back to themselves |
| Config.SimpleConfig.LoadFromFile | include/simple_config.h:10-28 | false with no change when the file cannot be opened; otherwise every line is stored on top of the old map |
| Config.LoadedKeys | include/simple_config.h:25 | a key is present after loading iff it was present before or some line defines it |
| Config.LastLineWins | include/simple_config.h:25 | the last line defining a key gives its value |
| Config.SimpleConfig.Has | include/simple_config.h:30-32 | true iff the key is stored |
| Config.SimpleConfig.GetString | include/simple_config.h:34-37 | the stored value, or the default when absent |
| Config.SimpleConfig.RequireString | include/simple_config.h:58-62 | fails iff the key is absent, with "Missing required config key: " + key; otherwise the stored value |
| Config.RequireAfterLoad | include/simple_config.h:10-28 | after loading into an empty config, a key is available iff some line defines it |
| Config.ResolveConfigPathFromArgs | include/simple_config.h:98-127 | the argv loop with break computes ResolvedPath |
| Config.FirstConfigArg | include/simple_config.h:100-124 | the first argument at or after i that is "--config" or starts with "--config=", if any |
| Config.DefaultWithoutConfigArg | include/simple_config.h:100-105 | with no config argument after argv[0] the default is returned; "--help"/"-h" never count |
| Config.ConfigEqualsForm | include/simple_config.h:106-110 | "--config=X" first gives X, or the default when X is empty |
| Config.ConfigFlagForm | include/simple_config.h:111-123 | "--config" first gives the next argument if it is non-empty and does not start with '-', else the default |
| Config.ResolvedPathFacts | include/simple_config.h:98-127 | a non-empty default gives a non-empty result; argv[0] never matters |
| Config.ResolveDefaultConfigPath | include/simple_config.h:98-127 | the call without a default path uses "config.txt": the result is never empty, and is "config.txt" when no configuration argument follows the program name |

## Left out

- Exchange sessions, subscriptions, event dispatch, message parsing (`std::stod`) and every `main`. These are I/O over
  a library the model does not see. Quote and trade messages arrive as already-parsed values.
- Mutexes and the atomic trade counter. Each object is modelled as used by one thread.
- Floating point: rounding, infinities, NaN and the `std::isfinite` guards, which always hold over `real`.
  `std::log` and `std::sqrt` are uninterpreted parameters, so accuracy is not modelled. For the same reason
  `Arbitrage.Percent` is absent when the Bybit price is 0, where C++ would produce inf or NaN.
- Percentile indices use exact integer arithmetic. The source casts `n * 0.9`, `n * 0.95` and `ceil(n * 0.05)`
  computed in `double`.
- 64-bit overflow of timestamps and of `period_days * DAY_IN_MS`. Integers are unbounded.
- Printing and formatting: `printAnalysis`, `toJsonString`, `printStatistics`, `printHeader`, timestamp formatting,
  the printing half of `calculateAndPrint` and the latency it prints. `CalculateAndPrint` returns the figures of the
  row instead.
- Liquidity.LiquidityAnalyzer.PerformComprehensiveAnalysis: the source reads the clock separately in each of the five
  Kyle and Amihud calls. The model uses one `now` for all of them.
- Liquidity.LiquidityAnalyzer.UpdateOrderBook: `std::sort` is not stable. The model fixes one sorted order and
  proves only what any order with those properties satisfies: a permutation, sorted best first.
- TradeMonitor.EventHandler.DetectVolatilityAnomaly: `sqrt(v) > 0.02` is stated as `v > 0.0004`, with the
  equivalence proved in `TradeMonitor.VolatilityTestBySquare`.
- The EWMA log return is `logRatio(price, previous)`. Its value for a non-positive price, which C++ makes
  NaN or −inf, is not modelled.
- `ExchangeData.last_update` is a `system_clock` time point. It is modelled as the integer `now` passed to the update.
- `SimpleConfig::getDouble`, `getInt`, `getLong`, `requireDouble`, `requireInt` and `requireLong` are not modelled.
  They depend on `std::stod`, `stoi` and `stol`.
- The `ifstream` open in `loadFromFile` becomes `Option<seq<string>>`; an unopenable file is `None`.
- LiquidityTypes.MakeTrade: the default argument `trade_id = ""` of the `Trade` constructor is not a default in the
  model; callers pass the id explicitly, and `MakeTrade(p, a, ts, s, "")` is the call without one.
- Config.SimpleConfig.GetString: the default argument `""` of `getString` is not a default in the model; callers
  pass it explicitly, and `GetString(key, "")` is the one-argument call.
- `loadEnv`, the option calculator (Black–Scholes Greeks) and the `env_vars` map.
- `VOLATILITY_WINDOW_SIZE`, which the source declares and never uses.
