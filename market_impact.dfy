/** The two market-impact measures of the liquidity metrics, as functions
    of the trade history: Kyle's lambda (calculateKylesLambda), the slope of
    log return on signed volume over consecutive trade pairs, and Amihud's
    illiquidity (calculateAmihudMeasure), the mean over days of
    Σ|return| / Σ traded value. The clock reading `now` is a parameter, and
    logRatio(p, q) stands for std::log(p / q). */
module MarketImpact {
  import opened Wrappers
  import opened Numeric
  import opened Regression
  import opened LiquidityTypes

  /** +1 for a buy, -1 for a sell, 0 for any other side string. */
  function SideSign(side: string): (s: real)
    ensures s == 1.0 <==> side == "buy"
    ensures s == -1.0 <==> side == "sell"
    ensures s == 0.0 <==> side != "buy" && side != "sell"
  {
    if side == "buy" then 1.0 else if side == "sell" then -1.0 else 0.0
  }

  /** One regression point: signed volume and log return of a trade pair. */
  datatype Observation = Observation(signedVolume: real, logReturn: real)

  /** The observation a consecutive pair contributes, if any: the later
      trade must lie within the window, both prices be positive and the
      log return be below 1 in absolute value. */
  function KylePair(prev: Trade, curr: Trade, now: int, windowMs: int, logRatio: (real, real) -> real): Option<Observation>
  {
    if now - curr.timestamp > windowMs then None
    else if prev.price > 0.0 && curr.price > 0.0 then
      var r := logRatio(curr.price, prev.price);
      if Abs(r) < 1.0 then Some(Observation(curr.amount * SideSign(curr.side), r)) else None
    else None
  }

  /** The observations of all consecutive pairs, oldest first. */
  function KyleObservations(trades: seq<Trade>, now: int, windowMs: int, logRatio: (real, real) -> real): (obs: seq<Observation>)
    ensures |trades| < 2 ==> obs == []
    ensures |trades| >= 2 ==> |obs| <= |trades| - 1
  {
    if |trades| < 2 then []
    else
      var n := |trades|;
      KyleObservations(trades[..n - 1], now, windowMs, logRatio) +
        Emitted(KylePair(trades[n - 2], trades[n - 1], now, windowMs, logRatio))
  }

  /** The observations an optional one contributes: none or itself. */
  function Emitted(o: Option<Observation>): (r: seq<Observation>)
    ensures |r| <= 1
    ensures o.Some? ==> r == [o.value]
    ensures o.None? ==> r == []
  {
    match o
    case Some(v) => [v]
    case None => []
  }

  /** One more trade adds the observation of its pair with the previous one. */
  lemma KyleStep(trades: seq<Trade>, i: nat, now: int, windowMs: int, logRatio: (real, real) -> real)
    requires 1 <= i < |trades|
    ensures KyleObservations(trades[..i + 1], now, windowMs, logRatio) ==
              KyleObservations(trades[..i], now, windowMs, logRatio) +
              Emitted(KylePair(trades[i - 1], trades[i], now, windowMs, logRatio))
  {
    assert trades[..i + 1][..i] == trades[..i];
  }

  lemma VolumesSnoc(obs: seq<Observation>, tail: seq<Observation>)
    ensures Volumes(obs + tail) == Volumes(obs) + Volumes(tail)
    ensures LogReturns(obs + tail) == LogReturns(obs) + LogReturns(tail)
  {
  }

  function Volumes(obs: seq<Observation>): (r: seq<real>)
    ensures |r| == |obs|
    ensures forall i :: 0 <= i < |r| ==> r[i] == obs[i].signedVolume
  {
    seq(|obs|, i requires 0 <= i < |obs| => obs[i].signedVolume)
  }

  function LogReturns(obs: seq<Observation>): (r: seq<real>)
    ensures |r| == |obs|
    ensures forall i :: 0 <= i < |r| ==> r[i] == obs[i].logReturn
  {
    seq(|obs|, i requires 0 <= i < |obs| => obs[i].logReturn)
  }

  /** The value calculateKylesLambda returns. */
  function KyleLambda(trades: seq<Trade>, now: int, windowMs: int, logRatio: (real, real) -> real): real
  {
    if |trades| < 2 then 0.0
    else
      var obs := KyleObservations(trades, now, windowMs, logRatio);
      if |obs| < 2 then 0.0 else Slope(Volumes(obs), LogReturns(obs))
  }

  /** Whether a pair is used depends on the LATER trade's timestamp only:
      the earlier trade may lie outside the window. */
  lemma KylePairWindow(prev: Trade, curr: Trade, now: int, windowMs: int, logRatio: (real, real) -> real)
    ensures KylePair(prev, curr, now, windowMs, logRatio).Some? <==>
              now - curr.timestamp <= windowMs && Abs(logRatio(curr.price, prev.price)) < 1.0
  {
  }

  /** Two trades give at most one observation, hence lambda 0. */
  lemma KyleNeedsThreeTrades(trades: seq<Trade>, now: int, windowMs: int, logRatio: (real, real) -> real)
    requires |trades| <= 2
    ensures KyleLambda(trades, now, windowMs, logRatio) == 0.0
  {
  }

  /** When no trade is a "buy" or a "sell" every signed volume is 0, so
      the regression has no spread in x and lambda is 0. */
  lemma KyleWithoutDirection(trades: seq<Trade>, now: int, windowMs: int, logRatio: (real, real) -> real)
    requires forall i :: 0 <= i < |trades| ==> trades[i].side != "buy" && trades[i].side != "sell"
    ensures KyleLambda(trades, now, windowMs, logRatio) == 0.0
  {
    if |trades| >= 2 {
      var obs := KyleObservations(trades, now, windowMs, logRatio);
      UndirectedVolumes(trades, now, windowMs, logRatio);
      var volumes := Volumes(obs);
      assert forall i :: 0 <= i < |volumes| ==> volumes[i] == obs[i].signedVolume == 0.0;
      SlopeOfConstantX(volumes, LogReturns(obs), 0.0);
    }
  }

  /** Every observation has signed volume 0. */
  ghost predicate Undirected(obs: seq<Observation>)
  {
    forall i :: 0 <= i < |obs| ==> obs[i].signedVolume == 0.0
  }

  lemma {:induction false} UndirectedVolumes(trades: seq<Trade>, now: int, windowMs: int, logRatio: (real, real) -> real)
    requires forall i :: 0 <= i < |trades| ==> trades[i].side != "buy" && trades[i].side != "sell"
    ensures Undirected(KyleObservations(trades, now, windowMs, logRatio))
    decreases |trades|
  {
    if |trades| >= 2 {
      var n := |trades|;
      var front := trades[..n - 1];
      UndirectedVolumes(front, now, windowMs, logRatio);
      assert SideSign(trades[n - 1].side) == 0.0;
      var prior := KyleObservations(front, now, windowMs, logRatio);
      var obs := KyleObservations(trades, now, windowMs, logRatio);
      match KylePair(trades[n - 2], trades[n - 1], now, windowMs, logRatio)
      case Some(o) =>
        assert o.signedVolume == trades[n - 1].amount * 0.0;
        assert obs == prior + [o];
        assert Undirected(obs) by {
          assert forall i :: 0 <= i < |prior| ==> obs[i] == prior[i];
        }
      case None =>
        assert obs == prior;
    }
  }

  /** Three trades of which only the first lies outside the window still
      give two observations: the pair (first, second) is counted because
      its later trade is recent. */
  lemma KyleCountsPairStartingOutsideWindow(a: Trade, b: Trade, c: Trade, now: int)
    requires now - a.timestamp > HOUR_IN_MS
    requires now - b.timestamp <= HOUR_IN_MS && now - c.timestamp <= HOUR_IN_MS
    ensures |KyleObservations([a, b, c], now, HOUR_IN_MS, (p, q) => 0.0)| == 2
  {
    var trades := [a, b, c];
    assert trades[..2] == [a, b];
    assert [a, b][..1] == [a];
  }

  /** Per-day sums of |return| and traded value. */
  datatype DayTotals = DayTotals(absReturns: real, volume: real)

  /** C++ integer division of int64: truncates toward zero. */
  function TruncDiv(a: int, b: int): (q: int)
    requires b > 0
    ensures a >= 0 ==> 0 <= a - q * b < b
    ensures a < 0 ==> -b < a - q * b <= 0
  {
    if a >= 0 then a / b else -((-a) / b)
  }

  /** What a consecutive pair adds to its day, if anything: the later
      trade must lie within the period, both trades on the same day
      (timestamp / DAY_IN_MS), the earlier price positive, and the traded
      value positive. */
  function AmihudPair(prev: Trade, curr: Trade, now: int, periodMs: int): (r: Option<(int, DayTotals)>)
    ensures r.Some? ==> r.value.1.absReturns >= 0.0 && r.value.1.volume > 0.0
  {
    if now - curr.timestamp > periodMs then None
    else
      var day, prevDay := TruncDiv(curr.timestamp, DAY_IN_MS), TruncDiv(prev.timestamp, DAY_IN_MS);
      if day == prevDay && prev.price > 0.0 then
        var ret := Abs(curr.price - prev.price) / prev.price;
        var volume := TradedValue(curr);
        if volume > 0.0 then Some((day, DayTotals(ret, volume))) else None
      else None
  }

  /** amount × price of a trade. */
  function TradedValue(t: Trade): (v: real)
    ensures v > 0.0
  {
    t.amount * t.price
  }

  /** daily_data[day].first += r; daily_data[day].second += v. */
  function AddToDay(daily: map<int, DayTotals>, day: int, t: DayTotals): (r: map<int, DayTotals>)
    ensures r.Keys == daily.Keys + {day}
    ensures forall d :: d in daily && d != day ==> r[d] == daily[d]
    ensures day in daily ==> r[day] == DayTotals(daily[day].absReturns + t.absReturns, daily[day].volume + t.volume)
    ensures day !in daily ==> r[day] == t
  {
    var before := if day in daily then daily[day] else DayTotals(0.0, 0.0);
    daily[day := DayTotals(before.absReturns + t.absReturns, before.volume + t.volume)]
  }

  /** Every day's totals are non-negative returns over a positive volume. */
  ghost predicate PositiveDays(daily: map<int, DayTotals>)
  {
    forall d :: d in daily ==> daily[d].absReturns >= 0.0 && daily[d].volume > 0.0
  }

  /** The daily_data map after the loop over consecutive pairs. */
  function DailyData(trades: seq<Trade>, now: int, periodMs: int): (daily: map<int, DayTotals>)
    ensures PositiveDays(daily)
  {
    if |trades| < 2 then map[]
    else
      var n := |trades|;
      Record(DailyData(trades[..n - 1], now, periodMs), AmihudPair(trades[n - 2], trades[n - 1], now, periodMs))
  }

  /** The map after a pair's contribution, if any, is added to its day. */
  function Record(daily: map<int, DayTotals>, p: Option<(int, DayTotals)>): (r: map<int, DayTotals>)
    requires PositiveDays(daily)
    requires p.Some? ==> p.value.1.absReturns >= 0.0 && p.value.1.volume > 0.0
    ensures PositiveDays(r)
    ensures p.None? ==> r == daily
    ensures p.Some? ==> r.Keys == daily.Keys + {p.value.0}
  {
    match p
    case Some((day, t)) => AddToDay(daily, day, t)
    case None => daily
  }

  /** One more trade adds its pair's contribution. */
  lemma DailyStep(trades: seq<Trade>, i: nat, now: int, periodMs: int)
    requires 1 <= i < |trades|
    ensures DailyData(trades[..i + 1], now, periodMs) ==
              Record(DailyData(trades[..i], now, periodMs), AmihudPair(trades[i - 1], trades[i], now, periodMs))
  {
    assert trades[..i + 1][..i] == trades[..i];
  }

  lemma MinKeyExists(keys: set<int>)
    requires keys != {}
    ensures exists k :: k in keys && forall j :: j in keys ==> k <= j
    decreases |keys|
  {
    if forall k :: k !in keys {
      assert false;
    }
    var x :| x in keys;
    if keys != {x} {
      var rest := keys - {x};
      MinKeyExists(rest);
      var y :| y in rest && forall j :: j in rest ==> y <= j;
      if x < y {
        forall j | j in keys
          ensures x <= j
        {
          if j != x {
            assert j in rest;
          }
        }
      } else {
        forall j | j in keys
          ensures y <= j
        {
          if j != x {
            assert j in rest;
          }
        }
      }
    } else {
      assert forall j :: j in keys ==> x <= j;
    }
  }

  /** The smallest day of the map: std::map iterates in ascending key order. */
  ghost function FirstDay(daily: map<int, DayTotals>): (k: int)
    requires daily != map[]
    ensures k in daily && forall j :: j in daily ==> k <= j
  {
    MinKeyExists(daily.Keys);
    var k :| k in daily && forall j :: j in daily ==> k <= j;
    k
  }

  /** The Amihud ratio of one day, when its volume is positive. */
  function DayRatio(t: DayTotals): real
  {
    if t.volume > 0.0 then t.absReturns / t.volume else 0.0
  }

  /** Σ of the day ratios, taken in ascending day order. */
  ghost function RatioSum(daily: map<int, DayTotals>): real
    decreases |daily|
  {
    if daily == map[] then 0.0
    else
      var k := FirstDay(daily);
      DayRatio(daily[k]) + RatioSum(daily - {k})
  }

  /** The number of days with positive volume. */
  ghost function ValidDays(daily: map<int, DayTotals>): nat
    decreases |daily|
  {
    if daily == map[] then 0
    else
      var k := FirstDay(daily);
      (if daily[k].volume > 0.0 then 1 else 0) + ValidDays(daily - {k})
  }

  /** The value calculateAmihudMeasure returns. */
  ghost function Amihud(trades: seq<Trade>, now: int, periodDays: int): real
  {
    if |trades| < 2 then 0.0
    else
      var daily := DailyData(trades, now, periodDays * DAY_IN_MS);
      if daily == map[] then 0.0
      else
        var days := ValidDays(daily);
        if days > 0 then RatioSum(daily) / (days as real) else 0.0
  }

  lemma {:induction false} RatioSumNonNegative(daily: map<int, DayTotals>)
    requires PositiveDays(daily)
    ensures RatioSum(daily) >= 0.0
    decreases |daily|
  {
    if daily != map[] {
      var k := FirstDay(daily);
      RatioSumNonNegative(daily - {k});
      NonNegativeQuotient(daily[k].absReturns, daily[k].volume);
    }
  }

  lemma NonNegativeQuotient(a: real, b: real)
    requires a >= 0.0 && b > 0.0
    ensures a / b >= 0.0
  {
  }

  /** Every day counted has positive volume, so all of them are valid. */
  lemma {:induction false} AllDaysValid(daily: map<int, DayTotals>)
    requires PositiveDays(daily)
    ensures ValidDays(daily) == |daily|
    decreases |daily|
  {
    if daily != map[] {
      var k := FirstDay(daily);
      AllDaysValid(daily - {k});
    }
  }

  /** The Amihud measure is never negative, and it is 0 when fewer than two
      trades are stored or no pair qualifies. */
  lemma AmihudNonNegative(trades: seq<Trade>, now: int, periodDays: int)
    ensures Amihud(trades, now, periodDays) >= 0.0
    ensures |trades| < 2 || DailyData(trades, now, periodDays * DAY_IN_MS) == map[] ==>
              Amihud(trades, now, periodDays) == 0.0
  {
    if |trades| >= 2 {
      var daily := DailyData(trades, now, periodDays * DAY_IN_MS);
      RatioSumNonNegative(daily);
      if daily != map[] && ValidDays(daily) > 0 {
        NonNegativeQuotient(RatioSum(daily), ValidDays(daily) as real);
      }
    }
  }

  /** Pairs that straddle a day boundary are ignored: if no two consecutive
      trades share a day the measure is 0. */
  lemma AmihudIgnoresCrossDayPairs(trades: seq<Trade>, now: int, periodDays: int)
    requires forall i :: 0 < i < |trades| ==>
               TruncDiv(trades[i - 1].timestamp, DAY_IN_MS) != TruncDiv(trades[i].timestamp, DAY_IN_MS)
    ensures Amihud(trades, now, periodDays) == 0.0
  {
    NoSameDayPairs(trades, now, periodDays * DAY_IN_MS);
  }

  lemma {:induction false} NoSameDayPairs(trades: seq<Trade>, now: int, periodMs: int)
    requires forall i :: 0 < i < |trades| ==>
               TruncDiv(trades[i - 1].timestamp, DAY_IN_MS) != TruncDiv(trades[i].timestamp, DAY_IN_MS)
    ensures DailyData(trades, now, periodMs) == map[]
    decreases |trades|
  {
    if |trades| >= 2 {
      var n := |trades|;
      NoSameDayPairs(trades[..n - 1], now, periodMs);
    }
  }
}
