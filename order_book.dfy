/** One side of an order book as LiquidityAnalyzer holds it, and the
    calculations it runs over a side: the filter that drops empty levels,
    the VWAP "walk the book" fill, the top-N depth and the slope of price
    against cumulative size. */
module OrderBook {
  import opened Wrappers
  import opened Numeric
  import opened Regression

  datatype LevelRecord = LevelRecord(price: real, size: real)

  /** An OrderBookLevel: its constructor refuses a negative price or size,
      so every level that exists has both non-negative. */
  type Level = l: LevelRecord | l.price >= 0.0 && l.size >= 0.0 witness LevelRecord(0.0, 0.0)

  /** The OrderBookLevel constructor: fails on a negative price or size. */
  function MakeLevel(price: real, size: real): (r: Result<Level, string>)
    ensures r.Success? <==> price >= 0.0 && size >= 0.0
    ensures r.Success? ==> r.value.price == price && r.value.size == size
  {
    if price < 0.0 || size < 0.0 then
      Failure("Invalid order book level: price and size must be non-negative")
    else
      var l: Level := LevelRecord(price, size);
      Success(l)
  }

  /** A level that survives updateOrderBook's filter. The levels handed to
      updateOrderBook are written field by field by their parser, past the
      constructor's check, so the filter is stated over raw records. */
  predicate Live(l: LevelRecord)
  {
    l.price > 0.0 && l.size > 0.0
  }

  /** The levels remove_if keeps, in their original order. */
  function Filter(levels: seq<LevelRecord>): (r: seq<Level>)
    ensures |r| <= |levels|
    ensures forall i :: 0 <= i < |r| ==> Live(r[i])
  {
    if levels == [] then []
    else Filter(levels[..|levels| - 1]) + (if Live(levels[|levels| - 1]) then [levels[|levels| - 1]] else [])
  }

  /** Filter keeps every live level as often as it occurs and nothing else. */
  lemma {:induction false} FilterCounts(levels: seq<LevelRecord>)
    ensures forall l :: multiset(Filter(levels))[l] == if Live(l) then multiset(levels)[l] else 0
    decreases |levels|
  {
    if levels != [] {
      var front, last := levels[..|levels| - 1], levels[|levels| - 1];
      assert levels == front + [last];
      FilterCounts(front);
    }
  }

  /** The remove_if/erase pass over one side. */
  method RemoveDead(levels: seq<LevelRecord>) returns (kept: seq<Level>)
    ensures kept == Filter(levels)
  {
    kept := [];
    var i := 0;
    while i < |levels|
      invariant 0 <= i <= |levels|
      invariant kept == Filter(levels[..i])
    {
      FilterStep(levels, i);
      kept := kept + if Live(levels[i]) then [levels[i]] else [];
      i := i + 1;
    }
    assert levels[..i] == levels;
  }

  /** Filtering one more level appends it when it is live. */
  lemma FilterStep(levels: seq<LevelRecord>, i: nat)
    requires i < |levels|
    ensures Filter(levels[..i + 1]) == Filter(levels[..i]) + if Live(levels[i]) then [levels[i]] else []
  {
    assert levels[..i + 1][..i] == levels[..i];
  }

  /** Bids best first: prices never increase along the side. */
  predicate BestBidFirst(s: seq<Level>)
  {
    forall i, j :: 0 <= i < j < |s| ==> s[i].price >= s[j].price
  }

  /** Asks best first: prices never decrease along the side. */
  predicate BestAskFirst(s: seq<Level>)
  {
    forall i, j :: 0 <= i < j < |s| ==> s[i].price <= s[j].price
  }

  /** The sizes of a side, in order. */
  function Sizes(levels: seq<Level>): (r: seq<real>)
    ensures |r| == |levels|
    ensures forall i :: 0 <= i < |r| ==> r[i] == levels[i].size && r[i] >= 0.0
  {
    seq(|levels|, i requires 0 <= i < |levels| => levels[i].size)
  }

  /** Total size of a side. */
  function TotalSize(levels: seq<Level>): (r: real)
    ensures r >= 0.0
  {
    SumNonNegative(Sizes(levels));
    Sum(Sizes(levels))
  }

  lemma TotalSizeCons(l: Level, rest: seq<Level>)
    ensures TotalSize([l] + rest) == l.size + TotalSize(rest)
  {
    assert Sizes([l] + rest) == [l.size] + Sizes(rest);
    SumCons(l.size, Sizes(rest));
  }

  lemma TotalSizeSnoc(levels: seq<Level>, i: nat)
    requires i < |levels|
    ensures TotalSize(levels[..i + 1]) == TotalSize(levels[..i]) + levels[i].size
  {
    assert Sizes(levels[..i + 1]) == Sizes(levels[..i]) + [levels[i].size];
    SumAppend(Sizes(levels[..i]), [levels[i].size]);
    assert Sum([levels[i].size]) == levels[i].size by {
      assert [levels[i].size][..0] == [];
    }
  }

  /** static_cast<size_t>(depth) clamped by min(_, n): a negative depth wraps
      to a huge unsigned value, so the whole side is taken. */
  function DepthCount(depth: int, n: nat): (r: nat)
    ensures r <= n
  {
    if depth < 0 || depth >= n then n else depth
  }

  /** Total size of the first DepthCount(depth, n) levels. */
  function Depth(levels: seq<Level>, depth: int): (r: real)
    ensures r >= 0.0
  {
    TotalSize(levels[..DepthCount(depth, |levels|)])
  }

  /** The bid_depth / ask_depth loop of analyzeOrderBookLiquidity. */
  method SideDepth(levels: seq<Level>, depth: int) returns (total: real)
    ensures total == Depth(levels, depth)
    ensures total >= 0.0
  {
    var count := DepthCount(depth, |levels|);
    total := 0.0;
    var i := 0;
    while i < count
      invariant 0 <= i <= count
      invariant total == TotalSize(levels[..i])
    {
      TotalSizeSnoc(levels, i);
      total := total + levels[i].size;
      i := i + 1;
    }
  }

  /** What a walk of the book fills: volume taken and Σ price × volume. */
  datatype Fill = Fill(volume: real, notional: real)

  /** What taking v units at level l costs: price × quantity. */
  function Notional(l: Level, v: real): real
  {
    l.price * v
  }

  /** calculateVWAP's loop, level by level: take min(size, still needed)
      from each level until nothing more is needed. */
  function Walk(orders: seq<Level>, need: real): (f: Fill)
    ensures f.volume >= 0.0
    ensures need <= 0.0 ==> f == Fill(0.0, 0.0)
  {
    if orders == [] || need <= 0.0 then Fill(0.0, 0.0)
    else
      var v := Min(orders[0].size, need);
      if v > 0.0 then
        var rest := Walk(orders[1..], need - v);
        Fill(v + rest.volume, Notional(orders[0], v) + rest.notional)
      else
        Walk(orders[1..], need)
  }

  /** The value calculateVWAP returns. */
  function Vwap(orders: seq<Level>, target: real): real
  {
    if orders == [] || target <= 0.0 then 0.0
    else
      var f := Walk(orders, target);
      if f.volume > 0.0 then f.notional / f.volume else 0.0
  }

  method CalculateVwap(orders: seq<Level>, target: real) returns (vwap: real)
    ensures vwap == Vwap(orders, target)
    ensures orders == [] || target <= 0.0 ==> vwap == 0.0
  {
    if |orders| == 0 || target <= 0.0 {
      return 0.0;
    }
    var cumulative, weighted := 0.0, 0.0;
    var i := 0;
    while i < |orders|
      invariant 0 <= i <= |orders|
      invariant Walk(orders, target) == Fill(cumulative + Walk(orders[i..], target - cumulative).volume,
                                             weighted + Walk(orders[i..], target - cumulative).notional)
    {
      if cumulative >= target {
        break;
      }
      WalkAdvance(orders, target, i, cumulative, weighted);
      var volume := Min(orders[i].size, target - cumulative);
      if volume > 0.0 {
        weighted := weighted + Notional(orders[i], volume);
        cumulative := cumulative + volume;
      }
      i := i + 1;
    }
    assert Walk(orders, target) == Fill(cumulative, weighted);
    vwap := if cumulative > 0.0 then weighted / cumulative else 0.0;
  }

  /** One level of the walk. */
  lemma WalkStep(orders: seq<Level>, need: real)
    requires orders != [] && need > 0.0
    ensures var v := Min(orders[0].size, need);
            Walk(orders, need) ==
              if v > 0.0 then Fill(v + Walk(orders[1..], need - v).volume,
                                   Notional(orders[0], v) + Walk(orders[1..], need - v).notional)
              else Walk(orders[1..], need)
  {
  }

  /** One iteration of calculateVWAP's loop keeps "what is accumulated
      plus the walk of the remaining levels is the whole walk". */
  lemma WalkAdvance(orders: seq<Level>, target: real, i: nat, cumulative: real, weighted: real)
    requires i < |orders| && cumulative < target
    requires Walk(orders, target) == Fill(cumulative + Walk(orders[i..], target - cumulative).volume,
                                          weighted + Walk(orders[i..], target - cumulative).notional)
    ensures var v := Min(orders[i].size, target - cumulative);
            var c := if v > 0.0 then cumulative + v else cumulative;
            var w := if v > 0.0 then weighted + Notional(orders[i], v) else weighted;
            Walk(orders, target) == Fill(c + Walk(orders[i + 1..], target - c).volume,
                                         w + Walk(orders[i + 1..], target - c).notional)
  {
    assert orders[i..][0] == orders[i] && orders[i..][1..] == orders[i + 1..];
    WalkStep(orders[i..], target - cumulative);
    var v := Min(orders[i].size, target - cumulative);
    if v > 0.0 {
      assert target - (cumulative + v) == (target - cumulative) - v;
    }
  }

  /** The volume a walk fills is the target, or the whole side when the
      side holds less. */
  lemma {:induction false} WalkVolume(orders: seq<Level>, need: real)
    requires need > 0.0
    ensures Walk(orders, need).volume == Min(need, TotalSize(orders))
    decreases |orders|
  {
    if orders != [] {
      var l, tail := orders[0], orders[1..];
      assert orders == [l] + tail;
      TotalSizeCons(l, tail);
      var v := Min(l.size, need);
      if v > 0.0 {
        if need - v > 0.0 {
          WalkVolume(tail, need - v);
        }
      } else {
        WalkVolume(tail, need);
      }
    }
  }

  /** Every unit of the fill was bought at a price in [lo, hi]. */
  predicate Bounded(f: Fill, lo: real, hi: real)
  {
    lo * f.volume <= f.notional <= hi * f.volume
  }

  /** Every level the walk can reach while still needing volume — level i
      with less than `need` in front of it — is priced within [lo, hi]. */
  predicate ReachedWithin(orders: seq<Level>, need: real, lo: real, hi: real)
  {
    forall i :: 0 <= i < |orders| && TotalSize(orders[..i]) < need ==> lo <= orders[i].price <= hi
  }

  /** When every level the walk consumes is priced in [lo, hi], so is every
      unit of the fill. */
  lemma {:induction false} WalkNotionalBounds(orders: seq<Level>, need: real, lo: real, hi: real)
    requires ReachedWithin(orders, need, lo, hi)
    ensures Bounded(Walk(orders, need), lo, hi)
    decreases |orders|
  {
    if orders == [] || need <= 0.0 {
      ZeroBounded(Walk(orders, need), lo, hi);
    } else {
      assert orders[..0] == [];
      assert lo <= orders[0].price <= hi;
      var v := Min(orders[0].size, need);
      var need' := if v > 0.0 then need - v else need;
      ReachedTail(orders, need, need', lo, hi);
      WalkNotionalBounds(orders[1..], need', lo, hi);
      if v > 0.0 {
        TakeBounded(orders, need, lo, hi);
      } else {
        WalkStep(orders, need);
      }
    }
  }

  /** What the walk still needs after the first level is short of the
      first level's size by what it needed, so the levels it reaches in the
      tail are levels it reached in the whole side. */
  lemma ReachedTail(orders: seq<Level>, need: real, need': real, lo: real, hi: real)
    requires orders != [] && need > 0.0
    requires need' == if Min(orders[0].size, need) > 0.0 then need - Min(orders[0].size, need) else need
    requires ReachedWithin(orders, need, lo, hi)
    ensures ReachedWithin(orders[1..], need', lo, hi)
  {
    var tail := orders[1..];
    forall i | 0 <= i < |tail| && TotalSize(tail[..i]) < need'
      ensures lo <= tail[i].price <= hi
    {
      assert orders[..i + 1] == [orders[0]] + tail[..i];
      TotalSizeCons(orders[0], tail[..i]);
      assert tail[i] == orders[i + 1];
    }
  }

  /** A longer prefix of a side holds at least as much size. */
  lemma {:induction false} PrefixSizeGrows(orders: seq<Level>, k: nat, j: nat)
    requires k <= j <= |orders|
    ensures TotalSize(orders[..k]) <= TotalSize(orders[..j])
    decreases j - k
  {
    if k < j {
      PrefixSizeGrows(orders, k, j - 1);
      TotalSizeSnoc(orders, j - 1);
    }
  }

  lemma ZeroBounded(f: Fill, lo: real, hi: real)
    requires f == Fill(0.0, 0.0)
    ensures Bounded(f, lo, hi)
  {
  }

  lemma TakeBounded(orders: seq<Level>, need: real, lo: real, hi: real)
    requires orders != [] && need > 0.0 && lo <= orders[0].price <= hi
    requires Min(orders[0].size, need) > 0.0
    requires Bounded(Walk(orders[1..], need - Min(orders[0].size, need)), lo, hi)
    ensures Bounded(Walk(orders, need), lo, hi)
  {
    WalkStep(orders, need);
    StepBounded(lo, hi, orders[0].price, Min(orders[0].size, need),
      Walk(orders[1..], need - Min(orders[0].size, need)), Walk(orders, need));
  }

  lemma StepBounded(lo: real, hi: real, p: real, v: real, rest: Fill, f: Fill)
    requires v >= 0.0 && lo <= p <= hi
    requires Bounded(rest, lo, hi)
    requires f == Fill(v + rest.volume, p * v + rest.notional)
    ensures Bounded(f, lo, hi)
  {
    ScaledBounds(p, v, lo, hi);
    var w := rest.volume;
    assert lo * f.volume == lo * v + lo * w;
    assert hi * f.volume == hi * v + hi * w;
  }

  lemma ScaledBounds(p: real, v: real, lo: real, hi: real)
    requires v >= 0.0 && lo <= p <= hi
    ensures lo * v <= p * v <= hi * v
  {
    assert (p - lo) * v >= 0.0;
    assert (hi - p) * v >= 0.0;
  }

  lemma QuotientBounds(n: real, v: real, lo: real, hi: real)
    requires v > 0.0 && lo * v <= n <= hi * v
    ensures lo <= n / v <= hi
  {
    assert n / v >= (lo * v) / v;
    assert n / v <= (hi * v) / v;
  }

  /** The VWAP lies within any bounds on the prices of the levels the walk
      consumes, whatever lies deeper in the book. */
  lemma VwapWithinReached(orders: seq<Level>, target: real, lo: real, hi: real)
    requires ReachedWithin(orders, target, lo, hi)
    requires orders != [] && target > 0.0 && Walk(orders, target).volume > 0.0
    ensures lo <= Vwap(orders, target) <= hi
  {
    WalkNotionalBounds(orders, target, lo, hi);
    VwapOfFill(orders, target);
    BoundedQuotient(Walk(orders, target), lo, hi);
  }

  /** If the first k levels cover the target (or k is the whole side), the
      VWAP lies between the lowest and the highest price among those k
      levels: the levels the loop consumes. */
  lemma VwapWithinConsumed(orders: seq<Level>, target: real, k: nat)
    requires k <= |orders| && (TotalSize(orders[..k]) >= target || k == |orders|)
    requires orders != [] && target > 0.0 && Walk(orders, target).volume > 0.0
    ensures k > 0
    ensures MinPrice(orders[..k]) <= Vwap(orders, target) <= MaxPrice(orders[..k])
  {
    var front := orders[..k];
    var lo, hi := MinPrice(front), MaxPrice(front);
    forall i | 0 <= i < |orders| && TotalSize(orders[..i]) < target
      ensures lo <= orders[i].price <= hi
    {
      if i >= k && k < |orders| {
        PrefixSizeGrows(orders, k, i);
        assert false;
      }
      assert front[i] == orders[i];
    }
    VwapWithinReached(orders, target, lo, hi);
  }

  /** The VWAP of a side whose prices all lie in [lo, hi] lies in [lo, hi]
      whenever anything was filled. */
  lemma VwapBounds(orders: seq<Level>, target: real, lo: real, hi: real)
    requires forall i :: 0 <= i < |orders| ==> lo <= orders[i].price <= hi
    requires orders != [] && target > 0.0 && Walk(orders, target).volume > 0.0
    ensures lo <= Vwap(orders, target) <= hi
  {
    VwapWithinReached(orders, target, lo, hi);
  }

  lemma VwapOfFill(orders: seq<Level>, target: real)
    requires orders != [] && target > 0.0 && Walk(orders, target).volume > 0.0
    ensures Vwap(orders, target) == Walk(orders, target).notional / Walk(orders, target).volume
  {
  }

  lemma BoundedQuotient(f: Fill, lo: real, hi: real)
    requires Bounded(f, lo, hi) && f.volume > 0.0
    ensures lo <= f.notional / f.volume <= hi
  {
    QuotientBounds(f.notional, f.volume, lo, hi);
  }

  /** A target the first level covers is filled at that level's price. */
  lemma VwapWithinFirstLevel(orders: seq<Level>, target: real)
    requires orders != [] && 0.0 < target <= orders[0].size
    ensures Vwap(orders, target) == orders[0].price
  {
    var p := orders[0].price;
    assert Min(orders[0].size, target) == target;
    WalkStep(orders, target);
    assert Walk(orders[1..], target - target) == Fill(0.0, 0.0);
    assert Walk(orders, target) == Fill(target, Notional(orders[0], target));
    VwapOfFill(orders, target);
    assert (p * target) / target == p;
  }

  /** With some volume on the side, a positive target is filled at least
      partly, and the VWAP of a live side is then positive. */
  lemma VwapPositive(orders: seq<Level>, target: real)
    requires forall i :: 0 <= i < |orders| ==> Live(orders[i])
    requires orders != [] && target > 0.0
    ensures Walk(orders, target).volume > 0.0
    ensures Vwap(orders, target) >= MinPrice(orders) > 0.0
  {
    assert orders == [orders[0]] + orders[1..];
    TotalSizeCons(orders[0], orders[1..]);
    WalkVolume(orders, target);
    VwapBounds(orders, target, MinPrice(orders), MaxPrice(orders));
  }

  /** The lowest price on a side. */
  function MinPrice(orders: seq<Level>): (r: real)
    requires orders != []
    ensures forall i :: 0 <= i < |orders| ==> r <= orders[i].price
    ensures exists i :: 0 <= i < |orders| && r == orders[i].price
  {
    if |orders| == 1 then orders[0].price
    else
      var m := MinPrice(orders[1..]);
      assert forall i :: 1 <= i < |orders| ==> orders[1..][i - 1] == orders[i];
      if orders[0].price <= m then orders[0].price else m
  }

  /** The highest price on a side. */
  function MaxPrice(orders: seq<Level>): (r: real)
    requires orders != []
    ensures forall i :: 0 <= i < |orders| ==> orders[i].price <= r
    ensures exists i :: 0 <= i < |orders| && r == orders[i].price
  {
    if |orders| == 1 then orders[0].price
    else
      var m := MaxPrice(orders[1..]);
      assert forall i :: 1 <= i < |orders| ==> orders[1..][i - 1] == orders[i];
      if orders[0].price >= m then orders[0].price else m
  }

  /** Prices of a side, in order. */
  function Prices(levels: seq<Level>): (r: seq<real>)
    ensures |r| == |levels|
    ensures forall i :: 0 <= i < |r| ==> r[i] == levels[i].price
  {
    seq(|levels|, i requires 0 <= i < |levels| => levels[i].price)
  }

  /** Running totals of size: the i-th entry is the size of levels 0..i. */
  function CumulativeSizes(levels: seq<Level>): (r: seq<real>)
    ensures |r| == |levels|
    ensures forall i :: 0 <= i < |r| ==> r[i] == TotalSize(levels[..i + 1])
  {
    seq(|levels|, i requires 0 <= i < |levels| => TotalSize(levels[..i + 1]))
  }

  /** The value calculateOrderBookSlope returns: the least-squares slope of
      price on cumulative size over the first DepthCount(depth, n) levels. */
  function BookSlope(orders: seq<Level>, depth: int): real
  {
    var k := DepthCount(depth, |orders|);
    if k < 2 then 0.0 else Slope(CumulativeSizes(orders[..k]), Prices(orders[..k]))
  }

  method CalculateOrderBookSlope(orders: seq<Level>, depth: int) returns (slope: real)
    ensures slope == BookSlope(orders, depth)
    ensures DepthCount(depth, |orders|) < 2 ==> slope == 0.0
  {
    var actualDepth := DepthCount(depth, |orders|);
    if actualDepth < 2 {
      return 0.0;
    }
    var prices, cumulativeVolumes := [], [];
    var cumulative := 0.0;
    var i := 0;
    while i < actualDepth
      invariant 0 <= i <= actualDepth
      invariant cumulative == TotalSize(orders[..i])
      invariant |prices| == |cumulativeVolumes| == i
      invariant forall j :: 0 <= j < i ==> prices[j] == orders[j].price
      invariant forall j :: 0 <= j < i ==> cumulativeVolumes[j] == TotalSize(orders[..j + 1])
    {
      TotalSizeSnoc(orders, i);
      cumulative := cumulative + orders[i].size;
      prices := prices + [orders[i].price];
      cumulativeVolumes := cumulativeVolumes + [cumulative];
      i := i + 1;
    }
    var top := orders[..actualDepth];
    assert prices == Prices(top);
    forall j | 0 <= j < actualDepth
      ensures cumulativeVolumes[j] == CumulativeSizes(top)[j]
    {
      assert top[..j + 1] == orders[..j + 1];
    }
    assert cumulativeVolumes == CumulativeSizes(top);
    slope := LinearRegression(cumulativeVolumes, prices);
  }

  /** A side quoted at a single price has no slope. */
  lemma FlatBookSlope(orders: seq<Level>, depth: int, p: real)
    requires forall i :: 0 <= i < |orders| ==> orders[i].price == p
    ensures BookSlope(orders, depth) == 0.0
  {
    var k := DepthCount(depth, |orders|);
    if k >= 2 {
      SlopeOfConstantY(CumulativeSizes(orders[..k]), Prices(orders[..k]), p);
    }
  }
}
