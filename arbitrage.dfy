/** The cross-exchange monitor (ArbitrageMonitor): the latest top-of-book
    quote from Binance and from Bybit, two configurable thresholds, and the
    comparison made after every update once both exchanges have quoted.
    Quote messages arrive as elements that may carry BID_PRICE, BID_SIZE,
    ASK_PRICE and ASK_SIZE; their text has already been parsed to reals.
    The wall clock at an update is a parameter. */
module Arbitrage {
  import opened Wrappers
  import opened Numeric

  const DEFAULT_MIN_PRICE_DIFF: real := 1.0
  const DEFAULT_PROFIT_THRESHOLD: real := 0.5

  /** The quote kept per exchange; lastUpdate is the clock in ms. */
  datatype ExchangeData = ExchangeData(bid: real, ask: real, bidVolume: real, askVolume: real,
                                       lastUpdate: int, hasData: bool)

  const EmptyExchange := ExchangeData(0.0, 0.0, 0.0, 0.0, 0, false)

  /** One message element: each field is present or absent. */
  datatype Element = Element(bidPrice: Option<real>, bidSize: Option<real>,
                             askPrice: Option<real>, askSize: Option<real>)

  /** Whether an element updates the quote at all. */
  predicate CarriesPrice(e: Element)
  {
    e.bidPrice.Some? || e.askPrice.Some?
  }

  /** One element: a price replaces the stored one, and its size replaces
      the stored volume only together with that price. */
  function ApplyElement(d: ExchangeData, e: Element): (r: ExchangeData)
    ensures r.lastUpdate == d.lastUpdate && r.hasData == d.hasData
  {
    var afterBid :=
      if e.bidPrice.Some? then d.(bid := e.bidPrice.value, bidVolume := e.bidSize.GetOr(d.bidVolume)) else d;
    if e.askPrice.Some? then afterBid.(ask := e.askPrice.value, askVolume := e.askSize.GetOr(afterBid.askVolume))
    else afterBid
  }

  /** The elements of a message, applied in order. */
  function ApplyElements(d: ExchangeData, es: seq<Element>): (r: ExchangeData)
    ensures r.lastUpdate == d.lastUpdate && r.hasData == d.hasData
  {
    if es == [] then d else ApplyElement(ApplyElements(d, es[..|es| - 1]), es[|es| - 1])
  }

  /** Whether some element of the message carried a price. */
  predicate Updated(es: seq<Element>)
  {
    exists i :: 0 <= i < |es| && CarriesPrice(es[i])
  }

  /** updateBinanceData / updateBybitData on the stored quote: a message
      that carried a price also stamps the clock and marks the exchange as
      having data. */
  function ApplyMessage(d: ExchangeData, es: seq<Element>, now: int): ExchangeData
  {
    var r := ApplyElements(d, es);
    if Updated(es) then r.(lastUpdate := now, hasData := true) else r
  }

  /** A message without any price leaves the quote exactly as it was. */
  lemma {:induction false} NoPriceNoChange(d: ExchangeData, es: seq<Element>)
    requires !Updated(es)
    ensures ApplyElements(d, es) == d
  {
    if es != [] {
      var front := es[..|es| - 1];
      assert !Updated(front) by {
        forall i | 0 <= i < |front|
          ensures !CarriesPrice(front[i])
        {
          assert front[i] == es[i];
        }
      }
      NoPriceNoChange(d, front);
      assert !CarriesPrice(es[|es| - 1]);
    }
  }

  /** A message that carries a price marks the exchange as quoted and
      stamps it with the clock. */
  lemma PriceMarksData(d: ExchangeData, es: seq<Element>, now: int)
    requires Updated(es)
    ensures ApplyMessage(d, es, now).hasData && ApplyMessage(d, es, now).lastUpdate == now
  {
  }

  /** A stored volume changes only through an element that carries both
      the price and the size on that side. */
  lemma {:induction false} VolumeOnlyWithPrice(d: ExchangeData, es: seq<Element>)
    ensures ApplyElements(d, es).bidVolume != d.bidVolume ==>
              exists i :: 0 <= i < |es| && es[i].bidPrice.Some? && es[i].bidSize.Some?
    ensures ApplyElements(d, es).askVolume != d.askVolume ==>
              exists i :: 0 <= i < |es| && es[i].askPrice.Some? && es[i].askSize.Some?
  {
    if es != [] {
      var n := |es|;
      var front := es[..n - 1];
      VolumeOnlyWithPrice(d, front);
      if exists i :: 0 <= i < |front| && front[i].bidPrice.Some? && front[i].bidSize.Some? {
        var i :| 0 <= i < |front| && front[i].bidPrice.Some? && front[i].bidSize.Some?;
        assert es[i] == front[i];
      }
      if exists i :: 0 <= i < |front| && front[i].askPrice.Some? && front[i].askSize.Some? {
        var i :| 0 <= i < |front| && front[i].askPrice.Some? && front[i].askSize.Some?;
        assert es[i] == front[i];
      }
    }
  }

  /** The element loop of updateBinanceData / updateBybitData. */
  method ReadQuotes(d: ExchangeData, es: seq<Element>) returns (r: ExchangeData, updated: bool)
    ensures r == ApplyElements(d, es)
    ensures updated <==> Updated(es)
  {
    r, updated := d, false;
    var i := 0;
    while i < |es|
      invariant 0 <= i <= |es|
      invariant r == ApplyElements(d, es[..i])
      invariant updated <==> Updated(es[..i])
    {
      assert es[..i + 1][..i] == es[..i];
      var e := es[i];
      if e.bidPrice.Some? {
        r := r.(bid := e.bidPrice.value);
        if e.bidSize.Some? {
          r := r.(bidVolume := e.bidSize.value);
        }
        updated := true;
      }
      if e.askPrice.Some? {
        r := r.(ask := e.askPrice.value);
        if e.askSize.Some? {
          r := r.(askVolume := e.askSize.value);
        }
        updated := true;
      }
      assert Updated(es[..i + 1]) <==> Updated(es[..i]) || CarriesPrice(es[i]) by {
        assert es[..i + 1][i] == es[i];
        assert forall j :: 0 <= j < i ==> es[..i + 1][j] == es[..i][j];
      }
      i := i + 1;
    }
    assert es[..i] == es;
  }

  /** The direction calculateAndPrint reports: "None", "Buy_Bybit" or
      "Buy_Binance". */
  datatype Direction = NoOpportunity | BuyBybit | BuyBinance
  {
    function Name(): string
    {
      match this
      case NoOpportunity => "None"
      case BuyBybit => "Buy_Bybit"
      case BuyBinance => "Buy_Binance"
    }
  }

  /** Picks a direction from the two cross-exchange spreads: Buy_Bybit
      when arb1 clears the threshold and beats arb2, else Buy_Binance when
      arb2 clears the threshold, else none with profit 0. */
  function Choose(arb1: real, arb2: real, threshold: real): (r: (Direction, real))
    ensures r.0 == BuyBybit <==> arb1 > threshold && arb1 > arb2
    ensures r.0 == BuyBinance <==> !(arb1 > threshold && arb1 > arb2) && arb2 > threshold
    ensures r.0 == BuyBybit ==> r.1 == arb1
    ensures r.0 == BuyBinance ==> r.1 == arb2
    ensures r.0 == NoOpportunity ==> r.1 == 0.0
  {
    if arb1 > threshold && arb1 > arb2 then (BuyBybit, arb1)
    else if arb2 > threshold then (BuyBinance, arb2)
    else (NoOpportunity, 0.0)
  }

  /** The choice always takes the larger spread: a direction is reported
      exactly when the larger spread clears the threshold, and then the
      profit is that larger spread, so it exceeds the threshold. */
  lemma ChooseTakesLargerSpread(arb1: real, arb2: real, threshold: real)
    ensures var (direction, profit) := Choose(arb1, arb2, threshold);
      && (direction == NoOpportunity <==> Max(arb1, arb2) <= threshold)
      && (direction != NoOpportunity ==> profit == Max(arb1, arb2) && profit > threshold)
  {
  }

  /** The figures one calculateAndPrint row shows, latency aside. The
      percentages are absent when the Bybit price they divide by is 0. */
  datatype Report = Report(bidDiff: real, askDiff: real,
                           bidDiffPercent: Option<real>, askDiffPercent: Option<real>,
                           bidArbitrage: bool, askArbitrage: bool,
                           direction: Direction, profit: real)

  function Percent(diff: real, base: real): Option<real>
  {
    if base != 0.0 then Some((diff / base) * 100.0) else None
  }

  /** calculateAndPrint: nothing until both exchanges have quoted. */
  function Decide(binance: ExchangeData, bybit: ExchangeData, minPriceDiff: real, profitThreshold: real): (r: Option<Report>)
    ensures r.Some? <==> binance.hasData && bybit.hasData
    ensures r.Some? ==> (r.value.bidArbitrage <==> Abs(binance.bid - bybit.bid) >= minPriceDiff)
    ensures r.Some? ==> (r.value.askArbitrage <==> Abs(binance.ask - bybit.ask) >= minPriceDiff)
    ensures r.Some? && r.value.direction != NoOpportunity ==> r.value.profit > profitThreshold
  {
    if !binance.hasData || !bybit.hasData then None
    else
      var bidDiff := binance.bid - bybit.bid;
      var askDiff := binance.ask - bybit.ask;
      var arb1 := binance.ask - bybit.bid;
      var arb2 := bybit.ask - binance.bid;
      var (direction, profit) := Choose(arb1, arb2, profitThreshold);
      Some(Report(bidDiff, askDiff, Percent(bidDiff, bybit.bid), Percent(askDiff, bybit.ask),
                  Abs(bidDiff) >= minPriceDiff, Abs(askDiff) >= minPriceDiff, direction, profit))
  }

  /** Identical quotes on both exchanges with a bid/ask spread above the
      profit threshold still report an opportunity (Buy_Binance, as the
      tie between the two spreads goes to the second test): each spread
      compares one exchange's ask with the other's bid. */
  lemma SameQuotesReportSpread(bid: real, ask: real, threshold: real, minPriceDiff: real, t1: int, t2: int)
    requires ask - bid > threshold
    ensures var q1 := ExchangeData(bid, ask, 0.0, 0.0, t1, true);
      var q2 := ExchangeData(bid, ask, 0.0, 0.0, t2, true);
      var r := Decide(q1, q2, minPriceDiff, threshold);
      r.Some? && r.value.direction == BuyBinance && r.value.profit == ask - bid
  {
  }

  class ArbitrageMonitor {
    var binanceData: ExchangeData
    var bybitData: ExchangeData
    var minPriceDiff: real
    var profitThreshold: real

    constructor()
      ensures binanceData == EmptyExchange && bybitData == EmptyExchange
      ensures minPriceDiff == DEFAULT_MIN_PRICE_DIFF && profitThreshold == DEFAULT_PROFIT_THRESHOLD
    {
      binanceData := EmptyExchange;
      bybitData := EmptyExchange;
      minPriceDiff := DEFAULT_MIN_PRICE_DIFF;
      profitThreshold := DEFAULT_PROFIT_THRESHOLD;
    }

    /** Replaces both thresholds and nothing else. */
    method SetConfig(minDiff: real, profitThres: real)
      modifies this
      ensures minPriceDiff == minDiff && profitThreshold == profitThres
      ensures binanceData == old(binanceData) && bybitData == old(bybitData)
    {
      minPriceDiff := minDiff;
      profitThreshold := profitThres;
    }

    /** The comparison row, if both exchanges have quoted. */
    method CalculateAndPrint() returns (report: Option<Report>)
      ensures report == Decide(binanceData, bybitData, minPriceDiff, profitThreshold)
    {
      if !binanceData.hasData || !bybitData.hasData {
        return None;
      }
      var bidDiffDollar := binanceData.bid - bybitData.bid;
      var askDiffDollar := binanceData.ask - bybitData.ask;
      var bidDiffPercent := Percent(bidDiffDollar, bybitData.bid);
      var askDiffPercent := Percent(askDiffDollar, bybitData.ask);
      var bidArbitrage := Abs(bidDiffDollar) >= minPriceDiff;
      var askArbitrage := Abs(askDiffDollar) >= minPriceDiff;
      var bestDirection := NoOpportunity;
      var potentialProfit := 0.0;
      var arb1 := binanceData.ask - bybitData.bid;
      var arb2 := bybitData.ask - binanceData.bid;
      if arb1 > profitThreshold && arb1 > arb2 {
        bestDirection := BuyBybit;
        potentialProfit := arb1;
      } else if arb2 > profitThreshold {
        bestDirection := BuyBinance;
        potentialProfit := arb2;
      }
      report := Some(Report(bidDiffDollar, askDiffDollar, bidDiffPercent, askDiffPercent,
                            bidArbitrage, askArbitrage, bestDirection, potentialProfit));
    }

    /** A Binance quote message; the Bybit quote is never touched. Returns
        the comparison row when the message carried a price. */
    method UpdateBinanceData(elements: seq<Element>, now: int) returns (report: Option<Report>)
      modifies this
      ensures binanceData == ApplyMessage(old(binanceData), elements, now)
      ensures bybitData == old(bybitData)
      ensures minPriceDiff == old(minPriceDiff) && profitThreshold == old(profitThreshold)
      ensures report == if Updated(elements) then Decide(binanceData, bybitData, minPriceDiff, profitThreshold) else None
    {
      var quote, updated := ReadQuotes(binanceData, elements);
      binanceData := quote;
      report := None;
      if updated {
        binanceData := binanceData.(lastUpdate := now, hasData := true);
        report := CalculateAndPrint();
      }
    }

    /** A Bybit quote message; the Binance quote is never touched. */
    method UpdateBybitData(elements: seq<Element>, now: int) returns (report: Option<Report>)
      modifies this
      ensures bybitData == ApplyMessage(old(bybitData), elements, now)
      ensures binanceData == old(binanceData)
      ensures minPriceDiff == old(minPriceDiff) && profitThreshold == old(profitThreshold)
      ensures report == if Updated(elements) then Decide(binanceData, bybitData, minPriceDiff, profitThreshold) else None
    {
      var quote, updated := ReadQuotes(bybitData, elements);
      bybitData := quote;
      report := None;
      if updated {
        bybitData := bybitData.(lastUpdate := now, hasData := true);
        report := CalculateAndPrint();
      }
    }
  }
}
