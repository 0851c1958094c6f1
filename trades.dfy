/** The trade anomaly monitor (MyEventHandler): a window of the 50 most
    recent trades, an EWMA estimate of the variance of log returns,
    adaptive size and price-move thresholds taken from percentiles of the
    window, and three anomaly tests run on every trade. std::log enters as
    logRatio(p, q), standing for log(p / q). */
module TradeMonitor {
  import opened Numeric
  import opened Window
  import opened Sorting

  /** Decay factor of the EWMA. */
  const LAMBDA: real := 0.92
  /** The variance the EWMA is seeded with on the first trade. */
  const SEED_VARIANCE: real := 0.0001
  /** sqrt(variance) > 0.02 is the volatility test; for a non-negative
      variance that is variance > 0.02² = 0.0004. */
  const VOLATILITY_THRESHOLD: real := 0.02
  const VOLATILITY_THRESHOLD_SQUARED: real := 0.0004
  const TRADE_SIZE_MULTIPLIER: real := 3.0
  const PRICE_DEVIATION_MULTIPLIER: real := 2.5
  const AVERAGE_WINDOW_SIZE: nat := 50
  const MIN_TRADES_FOR_ANALYSIS: nat := 10
  const INITIAL_LARGE_TRADE_THRESHOLD: real := 1.0
  const INITIAL_PRICE_MOVEMENT_THRESHOLD: real := 100.0
  const LARGE_TRADE_FLOOR: real := 1.0
  const PRICE_MOVEMENT_FLOOR: real := 10.0

  /** One trade of the window; the timestamp is the message time in ns. */
  datatype TradeData = TradeData(price: real, volume: real, timestamp: int)

  function VolumeOf(t: TradeData): real
  {
    t.volume
  }

  function PriceOf(t: TradeData): real
  {
    t.price
  }

  /** |p_i − p_{i−1}| for each consecutive pair of the window. */
  function PriceChanges(w: seq<TradeData>): (r: seq<real>)
    ensures |w| < 2 ==> r == []
    ensures |w| >= 2 ==> |r| == |w| - 1
  {
    if |w| < 2 then [] else seq(|w| - 1, i requires 0 <= i < |w| - 1 => Abs(w[i + 1].price - w[i].price))
  }

  /** Change i is the absolute move from trade i to trade i + 1. */
  lemma PriceChangesAt(w: seq<TradeData>)
    ensures forall i :: 0 <= i < |PriceChanges(w)| ==> PriceChanges(w)[i] == Abs(w[i + 1].price - w[i].price)
  {
  }

  /** One EWMA step: λ·σ² + (1 − λ)·r². */
  function EwmaStep(variance: real, r: real): (v: real)
  {
    LAMBDA * variance + (1.0 - LAMBDA) * Square(r)
  }

  /** The EWMA never becomes negative, and it moves toward r²: it lies
      between the old variance and r². */
  lemma EwmaStepBounds(variance: real, r: real)
    requires variance >= 0.0
    ensures EwmaStep(variance, r) >= 0.0
    ensures Min(variance, Square(r)) <= EwmaStep(variance, r) <= Max(variance, Square(r))
  {
  }

  /** calculateAverageTradeSize: the mean volume of the window, 0 when empty. */
  function AverageTradeSize(w: seq<TradeData>): real
  {
    Mean(Map(w, VolumeOf))
  }

  /** calculateAveragePrice: the mean price of the window, 0 when empty. */
  function AveragePrice(w: seq<TradeData>): real
  {
    Mean(Map(w, PriceOf))
  }

  /** calculateAveragePriceDeviation: the mean absolute consecutive price
      change, 0 with fewer than two trades. */
  function AveragePriceDeviation(w: seq<TradeData>): real
  {
    Mean(PriceChanges(w))
  }

  /** Index of the 90th percentile: floor(0.9 n), clamped to n − 1. */
  function Percentile90(n: nat): (k: nat)
    requires n > 0
    ensures k < n
    ensures k == n - 1 || (10 * k <= 9 * n < 10 * k + 10)
  {
    var k := (9 * n) / 10;
    if k < n - 1 then k else n - 1
  }

  /** Index of the 95th percentile: floor(0.95 m), clamped to m − 1. */
  function Percentile95(m: nat): (k: nat)
    requires m > 0
    ensures k < m
    ensures k == m - 1 || (100 * k <= 95 * m < 100 * k + 100)
  {
    var k := (95 * m) / 100;
    if k < m - 1 then k else m - 1
  }

  /** The large-trade threshold a recompute sets on a non-empty window. */
  function LargeTradeThreshold(w: seq<TradeData>): real
    requires w != []
  {
    var sorted := SortAsc(Map(w, VolumeOf));
    Max(LARGE_TRADE_FLOOR, sorted[Percentile90(|w|)])
  }

  /** The price-movement threshold a recompute sets on a window of at
      least two trades. */
  function PriceMovementThreshold(w: seq<TradeData>): real
    requires |w| >= 2
  {
    var changes := PriceChanges(w);
    var sorted := SortAsc(changes);
    Max(PRICE_MOVEMENT_FLOOR, sorted[Percentile95(|changes|)])
  }

  /** Each recomputed threshold is its floor or one of the window's own
      values, and never below the floor. */
  lemma ThresholdsComeFromWindow(w: seq<TradeData>)
    requires |w| >= 2
    ensures LargeTradeThreshold(w) >= LARGE_TRADE_FLOOR
    ensures LargeTradeThreshold(w) == LARGE_TRADE_FLOOR || LargeTradeThreshold(w) in Map(w, VolumeOf)
    ensures PriceMovementThreshold(w) >= PRICE_MOVEMENT_FLOOR
    ensures PriceMovementThreshold(w) == PRICE_MOVEMENT_FLOOR || PriceMovementThreshold(w) in PriceChanges(w)
  {
    var vs := Map(w, VolumeOf);
    var sv := SortAsc(vs);
    var i := Percentile90(|w|);
    assert sv[i] in multiset(sv);
    assert sv[i] in multiset(vs);
    var cs := PriceChanges(w);
    var sc := SortAsc(cs);
    var j := Percentile95(|cs|);
    assert sc[j] in multiset(sc);
    assert sc[j] in multiset(cs);
  }

  /** At least 90% of the window's volumes are at most the large-trade
      threshold: every sorted volume up to the percentile index is. */
  lemma LargeTradeThresholdCoversPercentile(w: seq<TradeData>)
    requires w != []
    ensures var sorted := SortAsc(Map(w, VolumeOf));
      forall i :: 0 <= i <= Percentile90(|w|) ==> sorted[i] <= LargeTradeThreshold(w)
  {
  }

  /** The price test: needs two trades and a positive mean deviation, then
      flags a move from the previous window price beyond the absolute
      threshold or beyond 2.5 × the mean deviation. */
  function PriceAnomaly(w: seq<TradeData>, price: real, threshold: real): bool
  {
    if |w| < 2 then false
    else
      var deviation := AveragePriceDeviation(w);
      if deviation <= 0.0 then false
      else
        var change := Abs(price - w[|w| - 2].price);
        change > threshold || change > deviation * PRICE_DEVIATION_MULTIPLIER
  }

  /** The size test: the absolute threshold alone before 10 trades or when
      the mean size is not positive; otherwise also 3 × the mean size. */
  function SizeAnomaly(w: seq<TradeData>, volume: real, threshold: real): bool
  {
    if |w| < MIN_TRADES_FOR_ANALYSIS then volume > threshold
    else
      var average := AverageTradeSize(w);
      if average <= 0.0 then volume > threshold
      else volume > threshold || volume > average * TRADE_SIZE_MULTIPLIER
  }

  /** The volatility test: sqrt(variance) > 0.02 once the EWMA is seeded. */
  function VolatilityAnomaly(initialized: bool, variance: real): bool
  {
    initialized && variance > VOLATILITY_THRESHOLD_SQUARED
  }

  /** The two ways of writing the volatility test agree on a non-negative
      variance whose square root is s. */
  lemma VolatilityTestBySquare(variance: real, s: real)
    requires variance >= 0.0 && s >= 0.0 && s * s == variance
    ensures s > VOLATILITY_THRESHOLD <==> variance > VOLATILITY_THRESHOLD_SQUARED
  {
    assert VOLATILITY_THRESHOLD * VOLATILITY_THRESHOLD == VOLATILITY_THRESHOLD_SQUARED;
    if s > VOLATILITY_THRESHOLD {
      assert s * s > VOLATILITY_THRESHOLD * s >= VOLATILITY_THRESHOLD * VOLATILITY_THRESHOLD;
    } else {
      assert s * s <= VOLATILITY_THRESHOLD * s;
      assert VOLATILITY_THRESHOLD * s <= VOLATILITY_THRESHOLD * VOLATILITY_THRESHOLD;
    }
  }

  /** The seed variance is below the volatility threshold, so the first
      trade never raises a volatility anomaly. */
  lemma SeedIsQuiet()
    ensures !VolatilityAnomaly(true, SEED_VARIANCE)
  {
  }

  /** Before 10 trades a size at or below the threshold is never flagged
      (sizes 1, 1, 1 against the initial threshold 1.0, say), and a size
      above it always is. */
  lemma EarlySizeTest(w: seq<TradeData>, volume: real, threshold: real)
    requires |w| < MIN_TRADES_FOR_ANALYSIS
    ensures SizeAnomaly(w, volume, threshold) <==> volume > threshold
  {
  }

  /** With fewer than two trades, or a window whose prices never change,
      no price anomaly is raised. */
  lemma FlatPricesAreQuiet(w: seq<TradeData>, price: real, threshold: real)
    requires forall i :: 0 < i < |w| ==> w[i].price == w[i - 1].price
    ensures !PriceAnomaly(w, price, threshold)
  {
    if |w| >= 2 {
      var changes := PriceChanges(w);
      PriceChangesAt(w);
      forall i | 0 <= i < |changes|
        ensures changes[i] == 0.0
      {
        assert w[i + 1].price == w[i].price;
      }
      SumConstant(changes, 0.0);
      assert Mean(changes) == 0.0;
    }
  }

  /** After a push the element at size − 2 is the trade that was newest
      before it: the price test compares against the previous trade. */
  lemma ComparesWithPreviousTrade(w: seq<TradeData>, t: TradeData)
    requires 0 < |w| <= AVERAGE_WINDOW_SIZE
    ensures var pushed := Push(w, t, AVERAGE_WINDOW_SIZE);
      |pushed| >= 2 && pushed[|pushed| - 2] == w[|w| - 1] && pushed[|pushed| - 1] == t
  {
  }

  class EventHandler {
    var recentTrades: seq<TradeData>
    var tradeCount: nat
    var largeTradeThreshold: real
    var priceMovementThreshold: real
    var ewmaInitialized: bool
    var ewmaVariance: real
    var previousPrice: real

    /** The window is bounded, the variance non-negative, each threshold
        at least its floor, and nothing has been seen before the EWMA is
        seeded. */
    ghost predicate Valid()
      reads this
    {
      && |recentTrades| <= AVERAGE_WINDOW_SIZE
      && ewmaVariance >= 0.0
      && largeTradeThreshold >= LARGE_TRADE_FLOOR
      && priceMovementThreshold >= PRICE_MOVEMENT_FLOOR
      && (!ewmaInitialized ==> recentTrades == [] && tradeCount == 0 && ewmaVariance == 0.0)
      && (ewmaInitialized ==> recentTrades != [] && tradeCount > 0)
    }

    constructor()
      ensures Valid()
      ensures recentTrades == [] && tradeCount == 0
      ensures largeTradeThreshold == INITIAL_LARGE_TRADE_THRESHOLD
      ensures priceMovementThreshold == INITIAL_PRICE_MOVEMENT_THRESHOLD
      ensures !ewmaInitialized && ewmaVariance == 0.0 && previousPrice == 0.0
    {
      recentTrades := [];
      tradeCount := 0;
      largeTradeThreshold := INITIAL_LARGE_TRADE_THRESHOLD;
      priceMovementThreshold := INITIAL_PRICE_MOVEMENT_THRESHOLD;
      ewmaInitialized := false;
      ewmaVariance := 0.0;
      previousPrice := 0.0;
    }

    /** The per-trade step: append, update the EWMA, evict the oldest trade
        past 50, recompute the thresholds, then run the three detectors on
        the updated state. */
    method OnTrade(price: real, quantity: real, timestamp: int, logRatio: (real, real) -> real)
      returns (priceAnomaly: bool, sizeAnomaly: bool, volatilityAnomaly: bool)
      requires Valid()
      modifies this
      ensures Valid()
      ensures recentTrades == Push(old(recentTrades), TradeData(price, quantity, timestamp), AVERAGE_WINDOW_SIZE)
      ensures recentTrades == Newest(old(recentTrades) + [TradeData(price, quantity, timestamp)], AVERAGE_WINDOW_SIZE)
      ensures tradeCount == old(tradeCount) + 1
      ensures ewmaInitialized && previousPrice == price
      ensures old(ewmaInitialized) ==> ewmaVariance == EwmaStep(old(ewmaVariance), logRatio(price, old(previousPrice)))
      ensures !old(ewmaInitialized) ==> ewmaVariance == SEED_VARIANCE
      ensures |recentTrades| < MIN_TRADES_FOR_ANALYSIS ==>
                largeTradeThreshold == old(largeTradeThreshold) && priceMovementThreshold == old(priceMovementThreshold)
      ensures |recentTrades| >= MIN_TRADES_FOR_ANALYSIS ==>
                largeTradeThreshold == LargeTradeThreshold(recentTrades) &&
                priceMovementThreshold == PriceMovementThreshold(recentTrades)
      ensures priceAnomaly == PriceAnomaly(recentTrades, price, priceMovementThreshold)
      ensures sizeAnomaly == SizeAnomaly(recentTrades, quantity, largeTradeThreshold)
      ensures volatilityAnomaly == VolatilityAnomaly(ewmaInitialized, ewmaVariance)
    {
      var trade := TradeData(price, quantity, timestamp);
      PushKeepsNewest(recentTrades, trade, AVERAGE_WINDOW_SIZE);
      AppendTrade(trade);
      UpdateEwmaVolatility(price, logRatio);
      TrimWindow();
      UpdateAdaptiveThresholds();
      priceAnomaly := DetectPriceAnomaly(price);
      sizeAnomaly := DetectSizeAnomaly(quantity);
      volatilityAnomaly := DetectVolatilityAnomaly();
    }

    /** push_back of the new trade and the trade counter's increment. */
    method AppendTrade(trade: TradeData)
      modifies this
      ensures recentTrades == old(recentTrades) + [trade] && tradeCount == old(tradeCount) + 1
      ensures ewmaInitialized == old(ewmaInitialized) && ewmaVariance == old(ewmaVariance)
      ensures previousPrice == old(previousPrice)
      ensures largeTradeThreshold == old(largeTradeThreshold) && priceMovementThreshold == old(priceMovementThreshold)
    {
      recentTrades := recentTrades + [trade];
      tradeCount := tradeCount + 1;
    }

    /** pop_front once the window holds more than AVERAGE_WINDOW_SIZE trades. */
    method TrimWindow()
      modifies this
      ensures recentTrades == if |old(recentTrades)| > AVERAGE_WINDOW_SIZE then old(recentTrades)[1..] else old(recentTrades)
      ensures tradeCount == old(tradeCount)
      ensures ewmaInitialized == old(ewmaInitialized) && ewmaVariance == old(ewmaVariance)
      ensures previousPrice == old(previousPrice)
      ensures largeTradeThreshold == old(largeTradeThreshold) && priceMovementThreshold == old(priceMovementThreshold)
    {
      if |recentTrades| > AVERAGE_WINDOW_SIZE {
        recentTrades := recentTrades[1..];
      }
    }

    /** Seeds the EWMA on the first price, then applies one step per price. */
    method UpdateEwmaVolatility(price: real, logRatio: (real, real) -> real)
      requires ewmaVariance >= 0.0
      modifies this
      ensures ewmaInitialized && previousPrice == price && ewmaVariance >= 0.0
      ensures old(ewmaInitialized) ==> ewmaVariance == EwmaStep(old(ewmaVariance), logRatio(price, old(previousPrice)))
      ensures !old(ewmaInitialized) ==> ewmaVariance == SEED_VARIANCE
      ensures recentTrades == old(recentTrades) && tradeCount == old(tradeCount)
      ensures largeTradeThreshold == old(largeTradeThreshold) && priceMovementThreshold == old(priceMovementThreshold)
    {
      if !ewmaInitialized {
        previousPrice := price;
        ewmaVariance := SEED_VARIANCE;
        ewmaInitialized := true;
        return;
      }
      var returnValue := logRatio(price, previousPrice);
      EwmaStepBounds(ewmaVariance, returnValue);
      ewmaVariance := LAMBDA * ewmaVariance + (1.0 - LAMBDA) * (returnValue * returnValue);
      previousPrice := price;
    }

    /** getEWMAVolatility: 0 before seeding, sqrt(variance) afterwards. */
    method GetEwmaVolatility(sqrt: real -> real) returns (volatility: real)
      ensures !ewmaInitialized ==> volatility == 0.0
      ensures ewmaInitialized ==> volatility == sqrt(ewmaVariance)
    {
      if !ewmaInitialized {
        return 0.0;
      }
      volatility := sqrt(ewmaVariance);
    }

    /** With at least 10 trades, sets both thresholds from percentiles of
        the window's volumes and absolute price changes. */
    method UpdateAdaptiveThresholds()
      requires largeTradeThreshold >= LARGE_TRADE_FLOOR && priceMovementThreshold >= PRICE_MOVEMENT_FLOOR
      modifies this
      ensures largeTradeThreshold >= LARGE_TRADE_FLOOR && priceMovementThreshold >= PRICE_MOVEMENT_FLOOR
      ensures |recentTrades| < MIN_TRADES_FOR_ANALYSIS ==>
                largeTradeThreshold == old(largeTradeThreshold) && priceMovementThreshold == old(priceMovementThreshold)
      ensures |recentTrades| >= MIN_TRADES_FOR_ANALYSIS ==>
                largeTradeThreshold == LargeTradeThreshold(recentTrades) &&
                priceMovementThreshold == PriceMovementThreshold(recentTrades)
      ensures recentTrades == old(recentTrades) && tradeCount == old(tradeCount)
      ensures ewmaInitialized == old(ewmaInitialized) && ewmaVariance == old(ewmaVariance)
      ensures previousPrice == old(previousPrice)
    {
      var w := recentTrades;
      if |w| < MIN_TRADES_FOR_ANALYSIS {
        return;
      }
      ThresholdsComeFromWindow(w);
      largeTradeThreshold := ComputeLargeTradeThreshold(w);
      priceMovementThreshold := ComputePriceMovementThreshold(w);
    }

    /** detectPriceAnomaly on the current window. */
    method DetectPriceAnomaly(price: real) returns (anomaly: bool)
      ensures anomaly == PriceAnomaly(recentTrades, price, priceMovementThreshold)
    {
      if |recentTrades| < 2 {
        return false;
      }
      var deviation := CalculateAveragePriceDeviation(recentTrades);
      if deviation <= 0.0 {
        return false;
      }
      var previous := recentTrades[|recentTrades| - 2].price;
      var change := Abs(price - previous);
      var absoluteAnomaly := change > priceMovementThreshold;
      var relativeAnomaly := change > deviation * PRICE_DEVIATION_MULTIPLIER;
      anomaly := absoluteAnomaly || relativeAnomaly;
    }

    /** detectSizeAnomaly on the current window. */
    method DetectSizeAnomaly(volume: real) returns (anomaly: bool)
      ensures anomaly == SizeAnomaly(recentTrades, volume, largeTradeThreshold)
    {
      if |recentTrades| < MIN_TRADES_FOR_ANALYSIS {
        return volume > largeTradeThreshold;
      }
      var average := CalculateAverageTradeSize(recentTrades);
      if average <= 0.0 {
        return volume > largeTradeThreshold;
      }
      var absoluteAnomaly := volume > largeTradeThreshold;
      var relativeAnomaly := volume > average * TRADE_SIZE_MULTIPLIER;
      anomaly := absoluteAnomaly || relativeAnomaly;
    }

    /** detectVolatilityAnomaly on the current EWMA. */
    method DetectVolatilityAnomaly() returns (anomaly: bool)
      ensures anomaly == VolatilityAnomaly(ewmaInitialized, ewmaVariance)
    {
      if !ewmaInitialized {
        return false;
      }
      anomaly := ewmaVariance > VOLATILITY_THRESHOLD_SQUARED;
    }
  }

  /** The 90th-percentile volume of the window, at least 1.0. */
  method ComputeLargeTradeThreshold(w: seq<TradeData>) returns (threshold: real)
    requires w != []
    ensures threshold == LargeTradeThreshold(w)
  {
    var volumes := CollectVolumes(w);
    var sorted := SortedCopy(volumes);
    threshold := Max(1.0, sorted[Percentile90(|sorted|)]);
  }

  /** The 95th-percentile absolute price change of the window, at least 10.0. */
  method ComputePriceMovementThreshold(w: seq<TradeData>) returns (threshold: real)
    requires |w| >= 2
    ensures threshold == PriceMovementThreshold(w)
  {
    var changes := CollectPriceChanges(w);
    var sorted := SortedCopy(changes);
    threshold := Max(10.0, sorted[Percentile95(|sorted|)]);
  }

  /** The mean volume of a window, by the source's summing loop. */
  method CalculateAverageTradeSize(w: seq<TradeData>) returns (average: real)
    ensures average == AverageTradeSize(w)
  {
    if w == [] {
      return 0.0;
    }
    var volumes := Map(w, VolumeOf);
    var sum := 0.0;
    var i := 0;
    while i < |w|
      invariant 0 <= i <= |w|
      invariant sum == Sum(volumes[..i])
    {
      SumStep(volumes, i);
      sum := sum + w[i].volume;
      i := i + 1;
    }
    assert volumes[..i] == volumes;
    average := sum / (|w| as real);
  }

  /** The mean price of a window, by the source's summing loop. */
  method CalculateAveragePrice(w: seq<TradeData>) returns (average: real)
    ensures average == AveragePrice(w)
  {
    if w == [] {
      return 0.0;
    }
    var prices := Map(w, PriceOf);
    var sum := 0.0;
    var i := 0;
    while i < |w|
      invariant 0 <= i <= |w|
      invariant sum == Sum(prices[..i])
    {
      SumStep(prices, i);
      sum := sum + w[i].price;
      i := i + 1;
    }
    assert prices[..i] == prices;
    average := sum / (|w| as real);
  }

  /** The mean absolute consecutive price change, by the source's loop. */
  method CalculateAveragePriceDeviation(w: seq<TradeData>) returns (average: real)
    ensures average == AveragePriceDeviation(w)
    ensures average >= 0.0
  {
    var changes := PriceChanges(w);
    PriceChangesAt(w);
    MeanNonNegative(changes);
    if |w| < 2 {
      return 0.0;
    }
    var sum := 0.0;
    var i := 1;
    while i < |w|
      invariant 1 <= i <= |w|
      invariant sum == Sum(changes[..i - 1])
    {
      SumStep(changes, i - 1);
      sum := sum + Abs(w[i].price - w[i - 1].price);
      i := i + 1;
    }
    assert changes[..i - 1] == changes;
    average := sum / ((|w| - 1) as real);
  }

  /** The window's volumes, oldest first. */
  method CollectVolumes(w: seq<TradeData>) returns (volumes: seq<real>)
    ensures volumes == Map(w, VolumeOf)
  {
    volumes := [];
    var i := 0;
    while i < |w|
      invariant 0 <= i <= |w|
      invariant volumes == Map(w[..i], VolumeOf)
    {
      assert w[..i + 1] == w[..i] + [w[i]];
      MapAppend(w[..i], [w[i]], VolumeOf);
      volumes := volumes + [w[i].volume];
      i := i + 1;
    }
    assert w[..i] == w;
  }

  /** The window's absolute consecutive price changes, oldest first. */
  method CollectPriceChanges(w: seq<TradeData>) returns (changes: seq<real>)
    ensures changes == PriceChanges(w)
  {
    changes := [];
    if |w| < 2 {
      return;
    }
    var i := 1;
    while i < |w|
      invariant 1 <= i <= |w|
      invariant |changes| == i - 1
      invariant forall j :: 0 <= j < i - 1 ==> changes[j] == Abs(w[j + 1].price - w[j].price)
    {
      changes := changes + [Abs(w[i].price - w[i - 1].price)];
      i := i + 1;
    }
    PriceChangesAt(w);
  }
}
