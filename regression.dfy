/** Ordinary least squares slope of y on x, as LiquidityAnalyzer's private
    calculateLinearRegression computes it: 0 when the samples differ in
    length, hold fewer than two points, or x has no variance. */
module Regression {
  import opened Numeric

  /** Σ (x_i - mx)(y_i - my), accumulated left to right. */
  function CrossDeviations(x: seq<real>, y: seq<real>, mx: real, my: real): real
    requires |x| == |y|
  {
    if x == [] then 0.0
    else CrossDeviations(x[..|x| - 1], y[..|y| - 1], mx, my) + CrossTerm(x[|x| - 1], y[|y| - 1], mx, my)
  }

  /** One point's contribution (x_i - mx)(y_i - my). */
  function CrossTerm(xv: real, yv: real, mx: real, my: real): real
  {
    (xv - mx) * (yv - my)
  }

  /** The slope the source returns for samples x and y. */
  function Slope(x: seq<real>, y: seq<real>): real
  {
    if |x| != |y| || |x| < 2 then 0.0
    else
      var den := SquaredDeviations(x, Mean(x));
      if den != 0.0 then CrossDeviations(x, y, Mean(x), Mean(y)) / den else 0.0
  }

  method LinearRegression(x: seq<real>, y: seq<real>) returns (slope: real)
    ensures slope == Slope(x, y)
    ensures |x| != |y| || |x| < 2 ==> slope == 0.0
  {
    if |x| != |y| || |x| < 2 {
      return 0.0;
    }
    var xSum := Accumulate(x);
    var ySum := Accumulate(y);
    var xMean, yMean := xSum / (|x| as real), ySum / (|y| as real);
    var numerator, denominator := 0.0, 0.0;
    var i := 0;
    while i < |x|
      invariant 0 <= i <= |x|
      invariant numerator == CrossDeviations(x[..i], y[..i], xMean, yMean)
      invariant denominator == SquaredDeviations(x[..i], xMean)
    {
      assert x[..i + 1][..i] == x[..i] && y[..i + 1][..i] == y[..i];
      numerator := numerator + CrossTerm(x[i], y[i], xMean, yMean);
      denominator := denominator + Square(x[i] - xMean);
      i := i + 1;
    }
    assert x[..i] == x && y[..i] == y;
    slope := if denominator != 0.0 then numerator / denominator else 0.0;
  }

  /** With no spread in x the slope is 0 whatever y is. */
  lemma SlopeOfConstantX(x: seq<real>, y: seq<real>, c: real)
    requires forall i :: 0 <= i < |x| ==> x[i] == c
    ensures Slope(x, y) == 0.0
  {
    if |x| == |y| && |x| >= 2 {
      SumConstant(x, c);
      var n := |x| as real;
      assert Mean(x) == (n * c) / n == c;
      NoDeviations(x, c);
    }
  }

  /** With no spread in y the slope is 0 whatever x is. */
  lemma SlopeOfConstantY(x: seq<real>, y: seq<real>, c: real)
    requires forall i :: 0 <= i < |y| ==> y[i] == c
    ensures Slope(x, y) == 0.0
  {
    if |x| == |y| && |x| >= 2 {
      SumConstant(y, c);
      var n := |y| as real;
      assert Mean(y) == (n * c) / n == c;
      NoCrossDeviations(x, y, Mean(x), c);
    }
  }

  lemma {:induction false} NoCrossDeviations(x: seq<real>, y: seq<real>, mx: real, c: real)
    requires |x| == |y|
    requires forall i :: 0 <= i < |y| ==> y[i] == c
    ensures CrossDeviations(x, y, mx, c) == 0.0
    decreases |x|
  {
    if x != [] {
      NoCrossDeviations(x[..|x| - 1], y[..|y| - 1], mx, c);
    }
  }

  /** On points lying exactly on y = a + b·x, with x not constant, the
      least-squares slope recovers b. */
  lemma SlopeOfExactLine(x: seq<real>, y: seq<real>, a: real, b: real, i: nat, j: nat)
    requires |x| == |y| && i < |x| && j < |x| && x[i] != x[j]
    requires forall k :: 0 <= k < |x| ==> y[k] == a + b * x[k]
    ensures Slope(x, y) == b
  {
    PointsOnLine(x, y, a, b);
    SlopeOnLine(x, y, a, b, i, j);
  }

  lemma SlopeOnLine(x: seq<real>, y: seq<real>, a: real, b: real, i: nat, j: nat)
    requires |x| == |y| && i < |x| && j < |x| && x[i] != x[j]
    requires OnLine(x, y, a, b)
    ensures Slope(x, y) == b
  {
    var mx := Mean(x);
    var den := SquaredDeviations(x, mx);
    SpreadDeviations(x, i, j);
    MeanOfLine(x, y, a, b);
    var my := Mean(y);
    var cd := CrossDeviations(x, y, mx, my);
    CrossOfLine(x, y, a, b, mx, my);
    assert Slope(x, y) == cd / den;
    ScaleDivide(cd, den, b);
  }

  /** Two distinct x values leave a nonzero sum of squared deviations. */
  lemma SpreadDeviations(x: seq<real>, i: nat, j: nat)
    requires i < |x| && j < |x| && x[i] != x[j]
    ensures SquaredDeviations(x, Mean(x)) != 0.0
  {
    if SquaredDeviations(x, Mean(x)) == 0.0 {
      ZeroDeviationsConstant(x, Mean(x));
      assert false;
    }
  }

  /** Every point (x[k], y[k]) lies on y = a + b·x, stated point by point
      from the last one back. */
  predicate OnLine(x: seq<real>, y: seq<real>, a: real, b: real)
    requires |x| == |y|
    decreases |x|
  {
    x == [] || (OnLine(x[..|x| - 1], y[..|y| - 1], a, b) && y[|y| - 1] == a + b * x[|x| - 1])
  }

  lemma {:induction false} PointsOnLine(x: seq<real>, y: seq<real>, a: real, b: real)
    requires |x| == |y|
    requires forall k :: 0 <= k < |x| ==> y[k] == a + b * x[k]
    ensures OnLine(x, y, a, b)
    decreases |x|
  {
    if x != [] {
      var n := |x| - 1;
      forall k | 0 <= k < n
        ensures y[..n][k] == a + b * x[..n][k]
      {
        assert y[..n][k] == y[k] && x[..n][k] == x[k];
      }
      PointsOnLine(x[..n], y[..n], a, b);
    }
  }

  /** The mean of points on y = a + b·x lies on the same line. */
  lemma MeanOfLine(x: seq<real>, y: seq<real>, a: real, b: real)
    requires |x| == |y| && x != []
    requires OnLine(x, y, a, b)
    ensures Mean(y) == a + b * Mean(x)
  {
    SumAffine(x, y, a, b);
    var n := |x| as real;
    assert Mean(x) == Sum(x) / n;
    assert Mean(y) == Sum(y) / n;
    MeanOfAffine(Sum(y), Sum(x), n, a, b, Mean(y), Mean(x));
  }

  /** sy == n·a + b·sx: the sums of n points on y = a + b·x. */
  predicate Affine(sy: real, sx: real, n: real, a: real, b: real)
  {
    sy == n * a + b * sx
  }

  lemma MeanOfAffine(sy: real, sx: real, n: real, a: real, b: real, my: real, mx: real)
    requires n > 0.0 && Affine(sy, sx, n, a, b)
    requires my == sy / n && mx == sx / n
    ensures my == a + b * mx
  {
    assert (n * a + b * sx) / n == (n * a) / n + (b * sx) / n;
    assert (b * sx) / n == b * (sx / n);
  }

  lemma ScaleDivide(c: real, d: real, b: real)
    requires d != 0.0 && Proportional(c, d, b)
    ensures c / d == b
  {
  }

  lemma {:induction false} NoDeviations(x: seq<real>, c: real)
    requires forall i :: 0 <= i < |x| ==> x[i] == c
    ensures SquaredDeviations(x, c) == 0.0
    decreases |x|
  {
    if x != [] {
      NoDeviations(x[..|x| - 1], c);
    }
  }

  lemma {:induction false} ZeroDeviationsConstant(x: seq<real>, m: real)
    requires SquaredDeviations(x, m) == 0.0
    ensures forall i :: 0 <= i < |x| ==> x[i] == m
    decreases |x|
  {
    if x != [] {
      var front := x[..|x| - 1];
      var d := x[|x| - 1] - m;
      assert SquaredDeviations(front, m) + Square(d) == 0.0;
      assert SquaredDeviations(front, m) >= 0.0 && Square(d) >= 0.0;
      SquareZero(d);
      ZeroDeviationsConstant(front, m);
      assert forall i :: 0 <= i < |front| ==> x[i] == front[i];
    }
  }

  lemma {:induction false} SumAffine(x: seq<real>, y: seq<real>, a: real, b: real)
    requires |x| == |y|
    requires OnLine(x, y, a, b)
    ensures Affine(Sum(y), Sum(x), |x| as real, a, b)
    decreases |x|
  {
    if x != [] {
      SumAffine(x[..|x| - 1], y[..|y| - 1], a, b);
      AffineStep(Sum(y[..|y| - 1]), Sum(x[..|x| - 1]), (|x| - 1) as real, a, b, x[|x| - 1], y[|y| - 1], Sum(y), Sum(x));
    }
  }

  /** Adding one more point of the line to the sums keeps them affine. */
  lemma AffineStep(sy: real, sx: real, n: real, a: real, b: real, xv: real, yv: real, sy': real, sx': real)
    requires Affine(sy, sx, n, a, b) && yv == a + b * xv
    requires sy' == sy + yv && sx' == sx + xv
    ensures Affine(sy', sx', n + 1.0, a, b)
  {
  }

  /** c == b · q, kept behind a predicate so that facts about sums carry
      over by congruence instead of by nonlinear arithmetic. */
  predicate Proportional(c: real, q: real, b: real)
  {
    c == b * q
  }

  lemma {:induction false} CrossOfLine(x: seq<real>, y: seq<real>, a: real, b: real, mx: real, my: real)
    requires |x| == |y|
    requires OnLine(x, y, a, b) && my == a + b * mx
    ensures Proportional(CrossDeviations(x, y, mx, my), SquaredDeviations(x, mx), b)
    decreases |x|
  {
    if x == [] {
      ZeroScaled(b, SquaredDeviations(x, mx));
      assert CrossDeviations(x, y, mx, my) == 0.0;
    } else {
      CrossOfLine(x[..|x| - 1], y[..|y| - 1], a, b, mx, my);
      LineStep(x[|x| - 1], y[|y| - 1], a, b, mx, my,
        CrossDeviations(x[..|x| - 1], y[..|y| - 1], mx, my), SquaredDeviations(x[..|x| - 1], mx),
        CrossDeviations(x, y, mx, my), SquaredDeviations(x, mx));
    }
  }

  lemma ZeroScaled(b: real, z: real)
    requires z == 0.0
    ensures Proportional(0.0, z, b)
  {
  }

  /** Adding one more point of the line to sums with cross = b · squared
      keeps cross = b · squared. */
  lemma LineStep(xv: real, yv: real, a: real, b: real, mx: real, my: real, c: real, q: real, cd: real, sd: real)
    requires yv == a + b * xv && my == a + b * mx && Proportional(c, q, b)
    requires cd == c + CrossTerm(xv, yv, mx, my)
    requires sd == q + Square(xv - mx)
    ensures Proportional(cd, sd, b)
  {
    var d := xv - mx;
    assert yv - my == b * d;
    assert d * (b * d) == b * (d * d);
  }
}
