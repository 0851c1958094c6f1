/** The order-book half of the liquidity metrics (analyzeOrderBookLiquidity):
    spread, relative spread, top-N depth, imbalance, VWAP and slippage of a
    sample order, and the slope of each side. */
module BookMetrics {
  import opened Wrappers
  import opened Numeric
  import opened OrderBook
  import opened LiquidityTypes

  /** (bid − ask) / (bid + ask), defined when the total is positive. */
  function Imbalance(bidDepth: real, askDepth: real): (r: real)
    requires bidDepth >= 0.0 && askDepth >= 0.0 && bidDepth + askDepth > 0.0
    ensures -1.0 <= r <= 1.0
    ensures r == 0.0 <==> bidDepth == askDepth
    ensures r > 0.0 <==> bidDepth > askDepth
  {
    var t := bidDepth + askDepth;
    var r := (bidDepth - askDepth) / t;
    assert -t <= bidDepth - askDepth <= t;
    DivideWithin(bidDepth - askDepth, t);
    r
  }

  lemma DivideWithin(d: real, t: real)
    requires t > 0.0 && -t <= d <= t
    ensures -1.0 <= d / t <= 1.0
    ensures d / t == 0.0 <==> d == 0.0
    ensures d / t > 0.0 <==> d > 0.0
  {
    assert d / t * t == d;
  }

  /** The metrics analyzeOrderBookLiquidity leaves behind, starting from m,
      for the stored sides `bids` and `asks`. Fields the source only
      assigns under a condition keep their value from m otherwise. */
  function AnalyzeBook(m: Metrics, bids: seq<Level>, asks: seq<Level>, depth: int, sampleVolume: real): Metrics
    requires WellFormedBook(bids, asks)
  {
    if bids == [] || asks == [] then m
    else
      var bestBid, bestAsk := bids[0].price, asks[0].price;
      var spread := bestAsk - bestBid;
      var mid := (bestAsk + bestBid) / 2.0;
      var bidDepth, askDepth := Depth(bids, depth), Depth(asks, depth);
      var bidVwap, askVwap := Vwap(bids, sampleVolume), Vwap(asks, sampleVolume);
      m.(spread := spread,
         relativeSpread := if mid > 0.0 then spread / mid else m.relativeSpread,
         bidDepth := bidDepth,
         askDepth := askDepth,
         orderBookImbalance :=
           if bidDepth + askDepth > 0.0 then Some(Imbalance(bidDepth, askDepth)) else m.orderBookImbalance,
         bidVwap := if bidVwap > 0.0 then Some(bidVwap) else m.bidVwap,
         bidSlippage := if bidVwap > 0.0 then Some((bestBid - bidVwap) / bestBid) else m.bidSlippage,
         askVwap := if askVwap > 0.0 then Some(askVwap) else m.askVwap,
         askSlippage := if askVwap > 0.0 then Some((askVwap - bestAsk) / bestAsk) else m.askSlippage,
         bidSlope := BookSlope(bids, depth),
         askSlope := BookSlope(asks, depth))
  }

  /** A book the analyzer holds: live levels, best price first on each side. */
  predicate WellFormedBook(bids: seq<Level>, asks: seq<Level>)
  {
    (forall i :: 0 <= i < |bids| ==> Live(bids[i])) && BestBidFirst(bids) &&
    (forall i :: 0 <= i < |asks| ==> Live(asks[i])) && BestAskFirst(asks)
  }

  /** With either side empty nothing is written. */
  lemma EmptySideLeavesMetrics(m: Metrics, bids: seq<Level>, asks: seq<Level>, depth: int, sampleVolume: real)
    requires WellFormedBook(bids, asks)
    requires bids == [] || asks == []
    ensures AnalyzeBook(m, bids, asks, depth, sampleVolume) == m
  {
  }

  /** A positive sample on a stored bid side fills at a VWAP no higher than
      the best bid, so the bid slippage is non-negative. */
  lemma BidSlippageNonNegative(bids: seq<Level>, sampleVolume: real)
    requires forall i :: 0 <= i < |bids| ==> Live(bids[i])
    requires BestBidFirst(bids) && bids != [] && sampleVolume > 0.0
    ensures 0.0 < Vwap(bids, sampleVolume) <= bids[0].price
    ensures (bids[0].price - Vwap(bids, sampleVolume)) / bids[0].price >= 0.0
  {
    assert Live(bids[0]);
    VwapPositive(bids, sampleVolume);
    VwapBounds(bids, sampleVolume, MinPrice(bids), bids[0].price);
    NonNegativeRatio(bids[0].price - Vwap(bids, sampleVolume), bids[0].price);
  }

  /** A positive sample on a stored ask side fills at a VWAP no lower than
      the best ask, so the ask slippage is non-negative. */
  lemma AskSlippageNonNegative(asks: seq<Level>, sampleVolume: real)
    requires forall i :: 0 <= i < |asks| ==> Live(asks[i])
    requires BestAskFirst(asks) && asks != [] && sampleVolume > 0.0
    ensures 0.0 < asks[0].price <= Vwap(asks, sampleVolume)
    ensures (Vwap(asks, sampleVolume) - asks[0].price) / asks[0].price >= 0.0
  {
    assert Live(asks[0]);
    VwapPositive(asks, sampleVolume);
    VwapBounds(asks, sampleVolume, asks[0].price, MaxPrice(asks));
    NonNegativeRatio(Vwap(asks, sampleVolume) - asks[0].price, asks[0].price);
  }

  /** On a stored book with both sides non-empty: the spread is best ask
      minus best bid, each depth is the size of the first min(depth, n)
      levels, the imbalance is written and lies in [-1, 1] whenever some
      depth was counted, and a positive sample volume always yields both
      VWAPs, bought no better than the best price, so with non-negative
      slippage. */
  lemma AnalyzeBookFacts(m: Metrics, bids: seq<Level>, asks: seq<Level>, depth: int, sampleVolume: real)
    requires WellFormedBook(bids, asks)
    requires bids != [] && asks != [] && sampleVolume > 0.0
    ensures var r := AnalyzeBook(m, bids, asks, depth, sampleVolume);
      && r.spread == asks[0].price - bids[0].price
      && r.bidDepth == TotalSize(bids[..DepthCount(depth, |bids|)])
      && r.askDepth == TotalSize(asks[..DepthCount(depth, |asks|)])
      && (r.bidDepth + r.askDepth > 0.0 ==>
            r.orderBookImbalance.Some? && -1.0 <= r.orderBookImbalance.value <= 1.0)
      && r.bidVwap.Some? && r.bidVwap.value <= bids[0].price
      && r.askVwap.Some? && r.askVwap.value >= asks[0].price
      && r.bidSlippage.Some? && r.bidSlippage.value >= 0.0
      && r.askSlippage.Some? && r.askSlippage.value >= 0.0
  {
    BidSlippageNonNegative(bids, sampleVolume);
    AskSlippageNonNegative(asks, sampleVolume);
  }

  lemma NonNegativeRatio(a: real, b: real)
    requires a >= 0.0 && b > 0.0
    ensures a / b >= 0.0
  {
  }

  /** An imbalance once written lies in [-1, 1], whatever book it came from. */
  lemma ImbalanceInRange(m: Metrics, bids: seq<Level>, asks: seq<Level>, depth: int, sampleVolume: real)
    requires WellFormedBook(bids, asks)
    requires m.orderBookImbalance.Some? ==> -1.0 <= m.orderBookImbalance.value <= 1.0
    ensures var r := AnalyzeBook(m, bids, asks, depth, sampleVolume);
      r.orderBookImbalance.Some? ==> -1.0 <= r.orderBookImbalance.value <= 1.0
  {
  }

  /** Bids (100, 2), (99, 5) against asks (101, 3), (102, 4): spread 1,
      both depths 7, balanced book; a unit sample fills at the best price
      on each side. */
  lemma WorkedExample()
    ensures var bids := [LevelRecord(100.0, 2.0), LevelRecord(99.0, 5.0)];
      var asks := [LevelRecord(101.0, 3.0), LevelRecord(102.0, 4.0)];
      WellFormedBook(bids, asks) &&
      var r := AnalyzeBook(DefaultMetrics, bids, asks, 10, 1.0);
      && r.spread == 1.0
      && r.bidDepth == 7.0 && r.askDepth == 7.0
      && r.orderBookImbalance == Some(0.0)
      && r.bidVwap == Some(100.0) && r.askVwap == Some(101.0)
  {
    var bids: seq<Level> := [LevelRecord(100.0, 2.0), LevelRecord(99.0, 5.0)];
    var asks: seq<Level> := [LevelRecord(101.0, 3.0), LevelRecord(102.0, 4.0)];
    assert WellFormedBook(bids, asks);
    var bd, ad := Depth(bids, 10), Depth(asks, 10);
    assert bd == 7.0 by {
      TwoLevelTotal(bids);
    }
    assert ad == 7.0 by {
      TwoLevelTotal(asks);
    }
    var bv, av := Vwap(bids, 1.0), Vwap(asks, 1.0);
    assert bv == 100.0 by {
      VwapWithinFirstLevel(bids, 1.0);
    }
    assert av == 101.0 by {
      VwapWithinFirstLevel(asks, 1.0);
    }
    var r := AnalyzeBook(DefaultMetrics, bids, asks, 10, 1.0);
    AnalyzeBookFields(DefaultMetrics, bids, asks, 10, 1.0);
    assert r.orderBookImbalance == Some(0.0) by {
      assert Imbalance(bd, ad) == 0.0;
    }
  }

  /** The fields analyzeOrderBookLiquidity writes on a book with both sides
      non-empty. */
  lemma AnalyzeBookFields(m: Metrics, bids: seq<Level>, asks: seq<Level>, depth: int, sampleVolume: real)
    requires WellFormedBook(bids, asks) && bids != [] && asks != []
    ensures var r := AnalyzeBook(m, bids, asks, depth, sampleVolume);
      var bd, ad := Depth(bids, depth), Depth(asks, depth);
      var bv, av := Vwap(bids, sampleVolume), Vwap(asks, sampleVolume);
      && r.spread == asks[0].price - bids[0].price
      && r.bidDepth == bd && r.askDepth == ad
      && r.orderBookImbalance == (if bd + ad > 0.0 then Some(Imbalance(bd, ad)) else m.orderBookImbalance)
      && r.bidVwap == (if bv > 0.0 then Some(bv) else m.bidVwap)
      && r.askVwap == (if av > 0.0 then Some(av) else m.askVwap)
      && r.bidSlippage == (if bv > 0.0 then Some((bids[0].price - bv) / bids[0].price) else m.bidSlippage)
      && r.askSlippage == (if av > 0.0 then Some((av - asks[0].price) / asks[0].price) else m.askSlippage)
  {
    assert Live(bids[0]) && Live(asks[0]);
  }

  lemma TwoLevelTotal(levels: seq<Level>)
    requires |levels| == 2
    ensures TotalSize(levels) == levels[0].size + levels[1].size
    ensures Depth(levels, 10) == TotalSize(levels)
  {
    assert levels[..DepthCount(10, 2)] == levels;
    assert levels == [levels[0]] + [levels[1]];
    TotalSizeCons(levels[0], [levels[1]]);
    TotalSizeCons(levels[1], []);
    assert [levels[1]] + [] == [levels[1]];
  }
}
