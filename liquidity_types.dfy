/** The records LiquidityAnalyzer works on: a trade, and the metrics
    struct its calculations fill in. */
module LiquidityTypes {
  import opened Wrappers

  /** Largest number of trades (and prices) the analyzer keeps. */
  const MAX_TRADE_HISTORY: nat := 10000
  const HOUR_IN_MS: int := 3600000
  const DAY_IN_MS: int := 86400000

  datatype TradeRecord = TradeRecord(price: real, amount: real, timestamp: int, side: string, cost: real, id: string)

  /** A Trade: its constructor throws unless price and amount are positive,
      and it fixes cost at price × amount. */
  type Trade = t: TradeRecord | t.price > 0.0 && t.amount > 0.0 && t.cost == t.price * t.amount
    witness TradeRecord(1.0, 1.0, 0, "", 1.0, "")

  /** The Trade constructor. */
  function MakeTrade(price: real, amount: real, timestamp: int, side: string, id: string): (r: Result<Trade, string>)
    ensures r.Success? <==> price > 0.0 && amount > 0.0
    ensures r.Success? ==> r.value.price == price && r.value.amount == amount && r.value.cost == price * amount
    ensures r.Success? ==> r.value.timestamp == timestamp && r.value.side == side && r.value.id == id
    ensures r.Failure? ==> r.error == "Invalid trade data: price and amount must be positive"
  {
    if price <= 0.0 || amount <= 0.0 then
      Failure("Invalid trade data: price and amount must be positive")
    else
      var t: Trade := TradeRecord(price, amount, timestamp, side, price * amount, id);
      Success(t)
  }

  datatype KylesLambda = KylesLambda(daily: real, hourly: real)
  datatype AmihudMeasures = AmihudMeasures(oneDay: real, thirtyDays: real, ninetyDays: real)

  /** LiquidityMetrics: the optional fields are std::optional in the source. */
  datatype Metrics = Metrics(
    spread: real,
    relativeSpread: real,
    bidDepth: real,
    askDepth: real,
    orderBookImbalance: Option<real>,
    bidVwap: Option<real>,
    askVwap: Option<real>,
    bidSlippage: Option<real>,
    askSlippage: Option<real>,
    bidSlope: real,
    askSlope: real,
    realizedVolatility: real,
    var95: real,
    expectedShortfall95: real,
    historicalVolatility: Option<real>,
    kylesLambda: KylesLambda,
    amihudMeasures: AmihudMeasures)

  /** A default-constructed LiquidityMetrics. */
  const DefaultMetrics := Metrics(0.0, 0.0, 0.0, 0.0, None, None, None, None, None, 0.0, 0.0,
                                  0.0, 0.0, 0.0, None, KylesLambda(0.0, 0.0), AmihudMeasures(0.0, 0.0, 0.0))
}
