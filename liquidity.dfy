/** LiquidityAnalyzer: the trade and price history (bounded FIFOs of
    10000), the current cleaned and sorted order book, and the calculations
    that fill a LiquidityMetrics record from them. The mutex is left out
    (each method is one atomic step here); the metrics the source updates
    through a reference are passed in and returned. */
module Liquidity {
  import opened Wrappers
  import opened Numeric
  import opened Window
  import opened Sorting
  import opened Regression
  import opened OrderBook
  import opened LiquidityTypes
  import opened BookMetrics
  import opened Risk
  import opened MarketImpact

  function PriceOf(t: Trade): real
  {
    t.price
  }

  /** What performComprehensiveAnalysis returns for the given state and
      clock reading. */
  ghost function Comprehensive(trades: seq<Trade>, prices: seq<real>, bids: seq<Level>, asks: seq<Level>,
                               now: int, logRatio: (real, real) -> real, sqrt: real -> real): Metrics
    requires WellFormedBook(bids, asks)
  {
    var m := RiskMetrics(DefaultMetrics, prices, logRatio, sqrt);
    var m := AnalyzeBook(m, bids, asks, 10, 1.0);
    m.(kylesLambda := KylesLambda(KyleLambda(trades, now, DAY_IN_MS, logRatio), KyleLambda(trades, now, HOUR_IN_MS, logRatio)),
       amihudMeasures := AmihudMeasures(Amihud(trades, now, 1), Amihud(trades, now, 30), Amihud(trades, now, 90)))
  }

  /** All three Amihud measures of a comprehensive analysis are
      non-negative, and with fewer than three trades both Kyle lambdas are 0. */
  lemma ComprehensiveFacts(trades: seq<Trade>, prices: seq<real>, bids: seq<Level>, asks: seq<Level>,
                           now: int, logRatio: (real, real) -> real, sqrt: real -> real)
    requires WellFormedBook(bids, asks)
    ensures var m := Comprehensive(trades, prices, bids, asks, now, logRatio, sqrt);
      && m.amihudMeasures.oneDay >= 0.0
      && m.amihudMeasures.thirtyDays >= 0.0
      && m.amihudMeasures.ninetyDays >= 0.0
      && (|trades| <= 2 ==> m.kylesLambda == KylesLambda(0.0, 0.0))
  {
    AmihudNonNegative(trades, now, 1);
    AmihudNonNegative(trades, now, 30);
    AmihudNonNegative(trades, now, 90);
    if |trades| <= 2 {
      KyleNeedsThreeTrades(trades, now, DAY_IN_MS, logRatio);
      KyleNeedsThreeTrades(trades, now, HOUR_IN_MS, logRatio);
    }
  }

  class LiquidityAnalyzer {
    var tradeHistory: seq<Trade>
    var priceHistory: seq<real>
    var currentBids: seq<Level>
    var currentAsks: seq<Level>

    /** Both histories are pushed together, so the price history is the
        trades' prices; both are bounded; the stored book is clean. */
    ghost predicate Valid()
      reads this
    {
      && |tradeHistory| <= MAX_TRADE_HISTORY
      && priceHistory == Map(tradeHistory, PriceOf)
      && WellFormedBook(currentBids, currentAsks)
    }

    constructor()
      ensures Valid()
      ensures tradeHistory == [] && priceHistory == []
      ensures currentBids == [] && currentAsks == []
    {
      tradeHistory := [];
      priceHistory := [];
      currentBids := [];
      currentAsks := [];
    }

    /** Appends to both histories, dropping the oldest entry past 10000. */
    method AddTrade(trade: Trade)
      requires Valid()
      modifies this
      ensures Valid()
      ensures tradeHistory == Push(old(tradeHistory), trade, MAX_TRADE_HISTORY)
      ensures tradeHistory == Newest(old(tradeHistory) + [trade], MAX_TRADE_HISTORY)
      ensures priceHistory == Push(old(priceHistory), trade.price, MAX_TRADE_HISTORY)
      ensures currentBids == old(currentBids) && currentAsks == old(currentAsks)
    {
      PushKeepsNewest(tradeHistory, trade, MAX_TRADE_HISTORY);
      PushMap(tradeHistory, trade, PriceOf, MAX_TRADE_HISTORY);
      tradeHistory := Push(tradeHistory, trade, MAX_TRADE_HISTORY);
      priceHistory := Push(priceHistory, trade.price, MAX_TRADE_HISTORY);
    }

    /** Stores a new book: levels with a non-positive price or size are
        dropped, then bids are sorted highest price first and asks lowest
        price first. */
    method UpdateOrderBook(bids: seq<LevelRecord>, asks: seq<LevelRecord>)
      requires Valid()
      modifies this
      ensures Valid()
      ensures multiset(currentBids) == multiset(Filter(bids))
      ensures multiset(currentAsks) == multiset(Filter(asks))
      ensures BestBidFirst(currentBids) && BestAskFirst(currentAsks)
      ensures tradeHistory == old(tradeHistory) && priceHistory == old(priceHistory)
    {
      var keptBids := RemoveDead(bids);
      var keptAsks := RemoveDead(asks);
      var sortedBids := SortSide(keptBids, (l: Level) => -l.price);
      var sortedAsks := SortSide(keptAsks, (l: Level) => l.price);
      LiveKept(keptBids, sortedBids);
      LiveKept(keptAsks, sortedAsks);
      currentBids := sortedBids;
      currentAsks := sortedAsks;
    }

    /** analyzeOrderBookLiquidity: the order-book fields of m for the
        stored book. */
    method AnalyzeOrderBookLiquidity(m: Metrics, depth: int, sampleVolume: real) returns (r: Metrics)
      requires Valid()
      ensures r == AnalyzeBook(m, currentBids, currentAsks, depth, sampleVolume)
    {
      if currentBids == [] || currentAsks == [] {
        return m;
      }
      assert Live(currentBids[0]) && Live(currentAsks[0]);
      var bestBid, bestAsk := currentBids[0].price, currentAsks[0].price;
      var spread := bestAsk - bestBid;
      var mid := (bestAsk + bestBid) / 2.0;
      r := m.(spread := spread);
      if mid > 0.0 {
        r := r.(relativeSpread := spread / mid);
      }
      var bidDepth := SideDepth(currentBids, depth);
      var askDepth := SideDepth(currentAsks, depth);
      r := r.(bidDepth := bidDepth, askDepth := askDepth);
      if bidDepth + askDepth > 0.0 {
        r := r.(orderBookImbalance := Some((bidDepth - askDepth) / (bidDepth + askDepth)));
      }
      var bidVwap := CalculateVwap(currentBids, sampleVolume);
      var askVwap := CalculateVwap(currentAsks, sampleVolume);
      if bidVwap > 0.0 {
        r := r.(bidVwap := Some(bidVwap), bidSlippage := Some((bestBid - bidVwap) / bestBid));
      }
      if askVwap > 0.0 {
        r := r.(askVwap := Some(askVwap), askSlippage := Some((askVwap - bestAsk) / bestAsk));
      }
      var bidSlope := CalculateOrderBookSlope(currentBids, depth);
      var askSlope := CalculateOrderBookSlope(currentAsks, depth);
      r := r.(bidSlope := bidSlope, askSlope := askSlope);
    }

    /** calculateRiskMetrics: the risk fields of m for the stored prices. */
    method CalculateRiskMetrics(m: Metrics, logRatio: (real, real) -> real, sqrt: real -> real) returns (r: Metrics)
      ensures r == RiskMetrics(m, priceHistory, logRatio, sqrt)
    {
      r := ComputeRisk(m, priceHistory, logRatio, sqrt);
    }

    /** calculateKylesLambda over the stored trades. */
    method CalculateKylesLambda(windowMs: int, now: int, logRatio: (real, real) -> real) returns (lambda: real)
      ensures lambda == KyleLambda(tradeHistory, now, windowMs, logRatio)
    {
      var trades := tradeHistory;
      if |trades| < 2 {
        return 0.0;
      }
      var signedVolumes: seq<real> := [];
      var logReturns: seq<real> := [];
      var i := 1;
      while i < |trades|
        invariant 1 <= i <= |trades|
        invariant signedVolumes == Volumes(KyleObservations(trades[..i], now, windowMs, logRatio))
        invariant logReturns == LogReturns(KyleObservations(trades[..i], now, windowMs, logRatio))
      {
        ghost var before := KyleObservations(trades[..i], now, windowMs, logRatio);
        KyleStep(trades, i, now, windowMs, logRatio);
        var pair := PairObservation(trades[i - 1], trades[i], now, windowMs, logRatio);
        VolumesSnoc(before, Emitted(pair));
        signedVolumes, logReturns := AppendObservation(signedVolumes, logReturns, pair);
        i := i + 1;
      }
      assert trades[..i] == trades;
      if |logReturns| < 2 {
        return 0.0;
      }
      lambda := LinearRegression(signedVolumes, logReturns);
    }

    /** calculateAmihudMeasure over the stored trades; never negative. */
    method CalculateAmihudMeasure(periodDays: int, now: int) returns (measure: real)
      ensures measure == Amihud(tradeHistory, now, periodDays)
      ensures measure >= 0.0
    {
      AmihudNonNegative(tradeHistory, now, periodDays);
      var trades := tradeHistory;
      if |trades| < 2 {
        return 0.0;
      }
      var periodMs := periodDays * DAY_IN_MS;
      var daily: map<int, DayTotals> := map[];
      var i := 1;
      while i < |trades|
        invariant 1 <= i <= |trades|
        invariant daily == DailyData(trades[..i], now, periodMs)
      {
        DailyStep(trades, i, now, periodMs);
        var contribution := PairContribution(trades[i - 1], trades[i], now, periodMs);
        if contribution.Some? {
          daily := AddToDay(daily, contribution.value.0, contribution.value.1);
        }
        i := i + 1;
      }
      assert trades[..i] == trades;
      if daily == map[] {
        return 0.0;
      }
      var total, validDays := SumDayRatios(daily);
      measure := if validDays > 0 then total / (validDays as real) else 0.0;
    }

    /** performComprehensiveAnalysis: risk, then the book with depth 10 and
        a unit sample, Kyle's lambda over a day and an hour, Amihud over 1,
        30 and 90 days. */
    method PerformComprehensiveAnalysis(now: int, logRatio: (real, real) -> real, sqrt: real -> real) returns (m: Metrics)
      requires Valid()
      ensures m == Comprehensive(tradeHistory, priceHistory, currentBids, currentAsks, now, logRatio, sqrt)
    {
      m := CalculateRiskMetrics(DefaultMetrics, logRatio, sqrt);
      m := AnalyzeOrderBookLiquidity(m, 10, 1.0);
      var daily := CalculateKylesLambda(DAY_IN_MS, now, logRatio);
      var hourly := CalculateKylesLambda(HOUR_IN_MS, now, logRatio);
      m := m.(kylesLambda := KylesLambda(daily, hourly));
      var oneDay := CalculateAmihudMeasure(1, now);
      var thirtyDays := CalculateAmihudMeasure(30, now);
      var ninetyDays := CalculateAmihudMeasure(90, now);
      m := m.(amihudMeasures := AmihudMeasures(oneDay, thirtyDays, ninetyDays));
    }

    /** getTradeHistorySize. */
    method GetTradeHistorySize() returns (n: nat)
      requires Valid()
      ensures n == |tradeHistory| && n == |priceHistory|
      ensures n <= MAX_TRADE_HISTORY
    {
      n := |tradeHistory|;
    }
  }

  /** The body of calculateKylesLambda's loop for one pair of trades. */
  method PairObservation(prev: Trade, curr: Trade, now: int, windowMs: int, logRatio: (real, real) -> real)
    returns (o: Option<Observation>)
    ensures o == KylePair(prev, curr, now, windowMs, logRatio)
  {
    o := None;
    if now - curr.timestamp > windowMs {
      return;
    }
    if prev.price > 0.0 && curr.price > 0.0 {
      var logReturn := logRatio(curr.price, prev.price);
      if Abs(logReturn) < 1.0 {
        var multiplier := if curr.side == "buy" then 1.0 else if curr.side == "sell" then -1.0 else 0.0;
        o := Some(Observation(curr.amount * multiplier, logReturn));
      }
    }
  }

  /** Pushes the pair's signed volume and log return, if it has one. */
  method AppendObservation(signedVolumes: seq<real>, logReturns: seq<real>, pair: Option<Observation>)
    returns (volumes': seq<real>, returns': seq<real>)
    ensures volumes' == signedVolumes + Volumes(Emitted(pair))
    ensures returns' == logReturns + LogReturns(Emitted(pair))
  {
    volumes', returns' := signedVolumes, logReturns;
    if pair.Some? {
      volumes' := volumes' + [pair.value.signedVolume];
      returns' := returns' + [pair.value.logReturn];
    }
  }

  /** The body of calculateAmihudMeasure's first loop for one pair of
      trades: the day and what it adds to that day, if anything. */
  method PairContribution(prev: Trade, curr: Trade, now: int, periodMs: int) returns (c: Option<(int, DayTotals)>)
    ensures c == AmihudPair(prev, curr, now, periodMs)
  {
    c := None;
    if now - curr.timestamp > periodMs {
      return;
    }
    var day := TruncDiv(curr.timestamp, DAY_IN_MS);
    var prevDay := TruncDiv(prev.timestamp, DAY_IN_MS);
    if day == prevDay && prev.price > 0.0 {
      var ret := Abs(curr.price - prev.price) / prev.price;
      var volume := TradedValue(curr);
      if volume > 0.0 {
        c := Some((day, DayTotals(ret, volume)));
      }
    }
  }

  /** Copies a side into an array and sorts it in place by ascending key. */
  method SortSide(levels: seq<Level>, key: Level -> real) returns (sorted: seq<Level>)
    ensures SortedBy(sorted, key)
    ensures multiset(sorted) == multiset(levels)
  {
    var a := new Level[|levels|](i requires 0 <= i < |levels| => levels[i]);
    assert a[..] == levels;
    SortByKey(a, key);
    sorted := a[..];
  }

  /** The body of calculateRiskMetrics over a price history. */
  method ComputeRisk(m: Metrics, prices: seq<real>, logRatio: (real, real) -> real, sqrt: real -> real) returns (r: Metrics)
    ensures r == RiskMetrics(m, prices, logRatio, sqrt)
  {
    if |prices| < 2 {
      return m;
    }
    var rets := ComputeReturns(prices, logRatio);
    if rets == [] {
      return m;
    }
    r := ComputeWithRisk(m, rets, sqrt);
  }

  /** Volatility, VaR, expected shortfall and historical volatility of a
      non-empty series of returns. */
  method ComputeWithRisk(m: Metrics, rets: seq<real>, sqrt: real -> real) returns (r: Metrics)
    requires rets != []
    ensures r == WithRisk(m, rets, sqrt)
  {
    var n := |rets|;
    var variance := ComputeSampleVariance(rets);
    var sorted, k := SortedTail(rets);
    var shortfall := ExpectedShortfall(sorted, k, m.expectedShortfall95);
    var historical := HistoricalVolatility(rets, sqrt, m.historicalVolatility);
    r := m.(realizedVolatility := Annualized(variance, sqrt),
            var95 := sorted[k] * 100.0,
            expectedShortfall95 := shortfall,
            historicalVolatility := historical);
  }

  /** Mean of the k smallest returns, in percent; `previous` when k is 0. */
  method ExpectedShortfall(sorted: seq<real>, k: nat, previous: real) returns (shortfall: real)
    requires k <= |sorted|
    ensures shortfall == if k > 0 then (Sum(sorted[..k]) / (k as real)) * 100.0 else previous
  {
    shortfall := previous;
    if k > 0 {
      var esSum := Accumulate(sorted[..k]);
      shortfall := (esSum / (k as real)) * 100.0;
    }
  }

  /** Annualized sample volatility of the last min(30, n) returns, when
      that window holds at least two; `previous` otherwise. */
  method HistoricalVolatility(rets: seq<real>, sqrt: real -> real, previous: Option<real>) returns (historical: Option<real>)
    ensures var n := |rets|; var w := HistoryWindow(n);
      historical == if w > 1 then Some(Annualized(SampleVariance(rets[n - w..]), sqrt)) else previous
  {
    historical := previous;
    var n := |rets|;
    var w := if n < 30 then n else 30;
    if w > 1 {
      var windowVariance := ComputeSampleVariance(rets[n - w..]);
      historical := Some(Annualized(windowVariance, sqrt));
    }
  }

  /** The returns sorted ascending (std::sort on a copy) and the VaR index
      ceil(0.05 n), clamped to n - 1. */
  method SortedTail(rets: seq<real>) returns (sorted: seq<real>, k: nat)
    requires rets != []
    ensures sorted == SortAsc(rets)
    ensures k == VarIndex(|rets|)
  {
    var n := |rets|;
    sorted := SortedCopy(rets);
    k := (5 * n + 99) / 100;
    if k > n - 1 {
      k := n - 1;
    }
  }

  /** Sorting the kept levels keeps them all live. */
  lemma LiveKept(kept: seq<Level>, sorted: seq<Level>)
    requires forall i :: 0 <= i < |kept| ==> Live(kept[i])
    requires multiset(sorted) == multiset(kept)
    ensures forall i :: 0 <= i < |sorted| ==> Live(sorted[i])
  {
    forall i | 0 <= i < |sorted|
      ensures Live(sorted[i])
    {
      assert sorted[i] in multiset(kept);
    }
  }

  /** The loop over daily_data in ascending day order: the sum of the
      day ratios and the number of days with positive volume. */
  method SumDayRatios(daily: map<int, DayTotals>) returns (total: real, validDays: nat)
    ensures total == RatioSum(daily)
    ensures validDays == ValidDays(daily)
  {
    total, validDays := 0.0, 0;
    var remaining := daily;
    while remaining != map[]
      invariant RatioSum(daily) == total + RatioSum(remaining)
      invariant ValidDays(daily) == validDays + ValidDays(remaining)
      decreases |remaining|
    {
      MinKeyExists(remaining.Keys);
      var day :| day in remaining && forall j :: j in remaining ==> day <= j;
      assert day == FirstDay(remaining);
      var data := remaining[day];
      if data.volume > 0.0 {
        total := total + data.absReturns / data.volume;
        validDays := validDays + 1;
      }
      remaining := remaining - {day};
    }
  }
}
