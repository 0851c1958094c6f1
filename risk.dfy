/** The risk half of the liquidity metrics (calculateRiskMetrics): log
    returns of consecutive prices, realized volatility, 95% value at risk,
    expected shortfall and a 30-period historical volatility. std::log and
    std::sqrt are parameters: logRatio(p, q) stands for log(p / q). */
module Risk {
  import opened Numeric
  import opened Sorting
  import opened Wrappers
  import opened LiquidityTypes

  /** The log returns of consecutive prices, oldest first; a pair is
      skipped unless both of its prices are positive. */
  function Returns(prices: seq<real>, logRatio: (real, real) -> real): (r: seq<real>)
    ensures |prices| < 2 ==> r == []
    ensures |prices| >= 2 ==> |r| <= |prices| - 1
    ensures (forall i :: 0 <= i < |prices| ==> prices[i] > 0.0) && |prices| >= 2 ==>
              |r| == |prices| - 1 && forall i :: 0 <= i < |r| ==> r[i] == logRatio(prices[i + 1], prices[i])
  {
    if |prices| < 2 then []
    else
      var n := |prices|;
      var front := prices[..n - 1];
      assert forall i :: 0 <= i < |front| ==> front[i] == prices[i];
      Returns(front, logRatio) +
        (if prices[n - 2] > 0.0 && prices[n - 1] > 0.0 then [logRatio(prices[n - 1], prices[n - 2])] else [])
  }

  /** The loop that collects the returns. */
  method ComputeReturns(prices: seq<real>, logRatio: (real, real) -> real) returns (logReturns: seq<real>)
    ensures logReturns == Returns(prices, logRatio)
  {
    logReturns := [];
    if |prices| < 2 {
      return;
    }
    var i := 1;
    while i < |prices|
      invariant 1 <= i <= |prices|
      invariant logReturns == Returns(prices[..i], logRatio)
    {
      assert prices[..i + 1][..i] == prices[..i];
      if prices[i - 1] > 0.0 && prices[i] > 0.0 {
        logReturns := logReturns + [logRatio(prices[i], prices[i - 1])];
      }
      i := i + 1;
    }
    assert prices[..i] == prices;
  }

  /** The source's sample variance loop: mean by std::accumulate, then
      squared deviations, divided by max(1, n - 1). */
  method ComputeSampleVariance(s: seq<real>) returns (variance: real)
    requires s != []
    ensures variance == SampleVariance(s)
    ensures variance >= 0.0
  {
    var total := Accumulate(s);
    var mean := total / (|s| as real);
    variance := 0.0;
    var i := 0;
    while i < |s|
      invariant 0 <= i <= |s|
      invariant variance == SquaredDeviations(s[..i], mean)
    {
      SquaredDeviationsStep(s, mean, i);
      variance := variance + Square(s[i] - mean);
      i := i + 1;
    }
    assert s[..i] == s;
    variance := variance / Max(1.0, (|s| - 1) as real);
  }

  /** The percentile index of the 95% VaR: ceil(0.05 n), clamped to n - 1. */
  function VarIndex(n: nat): (k: nat)
    requires n > 0
    ensures k < n
    ensures k == n - 1 || (5 * n <= 100 * k < 5 * n + 100)
    ensures k == 0 <==> n == 1
  {
    var c := (5 * n + 99) / 100;
    if c < n - 1 then c else n - 1
  }

  /** sqrt(variance · 365 · 24) · 100: annualized from hourly returns, in percent. */
  function Annualized(variance: real, sqrt: real -> real): real
  {
    sqrt(variance * 365.0 * 24.0) * 100.0
  }

  /** Length of the trailing window of the historical volatility. */
  function HistoryWindow(n: nat): (w: nat)
    ensures w <= n && w <= 30
    ensures w == n || w == 30
  {
    if n < 30 then n else 30
  }

  /** The metrics calculateRiskMetrics leaves behind, starting from m. */
  function RiskMetrics(m: Metrics, prices: seq<real>, logRatio: (real, real) -> real, sqrt: real -> real): Metrics
  {
    if |prices| < 2 then m
    else
      var rets := Returns(prices, logRatio);
      if rets == [] then m else WithRisk(m, rets, sqrt)
  }

  /** The risk fields computed from a non-empty series of returns. */
  function WithRisk(m: Metrics, rets: seq<real>, sqrt: real -> real): Metrics
    requires rets != []
  {
    var n := |rets|;
    var sorted := SortAsc(rets);
    var k := VarIndex(n);
    var w := HistoryWindow(n);
    m.(realizedVolatility := Annualized(SampleVariance(rets), sqrt),
       var95 := sorted[k] * 100.0,
       expectedShortfall95 :=
         if k > 0 then (Sum(sorted[..k]) / (k as real)) * 100.0 else m.expectedShortfall95,
       historicalVolatility :=
         if w > 1 then Some(Annualized(SampleVariance(rets[n - w..]), sqrt)) else m.historicalVolatility)
  }

  /** Fewer than two prices, or no usable pair, changes nothing. */
  lemma RiskNeedsTwoPrices(m: Metrics, prices: seq<real>, logRatio: (real, real) -> real, sqrt: real -> real)
    requires |prices| < 2 || Returns(prices, logRatio) == []
    ensures RiskMetrics(m, prices, logRatio, sqrt) == m
  {
  }

  /** On positive prices (all a LiquidityAnalyzer stores), with at least two
      of them: VaR is the ceil(5%) smallest return in percent, expected
      shortfall and historical volatility are written exactly when there
      are at least two returns, and then the shortfall (mean of the returns
      below the VaR index) is at most the VaR. */
  lemma RiskMetricsFacts(m: Metrics, prices: seq<real>, logRatio: (real, real) -> real, sqrt: real -> real)
    requires |prices| >= 2 && forall i :: 0 <= i < |prices| ==> prices[i] > 0.0
    ensures var r := RiskMetrics(m, prices, logRatio, sqrt);
      var rets := Returns(prices, logRatio);
      && |rets| == |prices| - 1
      && r.var95 == SortAsc(rets)[VarIndex(|rets|)] * 100.0
      && (|rets| >= 2 ==> r.expectedShortfall95 <= r.var95)
      && (|rets| == 1 ==> r.expectedShortfall95 == m.expectedShortfall95)
      && (r.historicalVolatility != m.historicalVolatility ==> |rets| >= 2)
      && (|rets| >= 2 ==> r.historicalVolatility.Some?)
  {
    var rets := Returns(prices, logRatio);
    var n := |rets|;
    if n >= 2 {
      var sorted := SortAsc(rets);
      var k := VarIndex(n);
      ShortfallBelowVar(sorted, k);
    }
  }

  /** In an ascending sequence the mean of the entries before index k is at
      most the entry at k, and scaling by 100 keeps the order. */
  lemma ShortfallBelowVar(sorted: seq<real>, k: nat)
    requires Ascending(sorted) && 0 < k < |sorted|
    ensures (Sum(sorted[..k]) / (k as real)) * 100.0 <= sorted[k] * 100.0
  {
    var below := sorted[..k];
    MeanUpperBound(below, sorted[k]);
    assert Mean(below) == Sum(below) / (k as real);
  }
}
