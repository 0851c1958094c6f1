/** Real-valued helpers shared by the analytics: absolute value, min/max,
    sums accumulated left to right (as the source's loops and
    std::accumulate do) and means. */
module Numeric {

  function Abs(x: real): (r: real)
    ensures r >= 0.0
    ensures r == x || r == -x
  {
    if x < 0.0 then -x else x
  }

  function Max(a: real, b: real): (r: real)
    ensures r >= a && r >= b
    ensures r == a || r == b
  {
    if a < b then b else a
  }

  function Min(a: real, b: real): (r: real)
    ensures r <= a && r <= b
    ensures r == a || r == b
  {
    if b < a then b else a
  }

  /** Left-to-right sum: Sum(s[..i+1]) == Sum(s[..i]) + s[i]. */
  function Sum(s: seq<real>): real
  {
    if s == [] then 0.0 else Sum(s[..|s| - 1]) + s[|s| - 1]
  }

  /** Arithmetic mean; 0 for the empty sequence, as every guarded mean in the source. */
  function Mean(s: seq<real>): real
  {
    if s == [] then 0.0 else Sum(s) / (|s| as real)
  }

  function Square(x: real): (r: real)
    ensures r >= 0.0
  {
    x * x
  }

  lemma ProductPositive(a: real, b: real)
    requires a > 0.0 && b > 0.0
    ensures a * b > 0.0
  {
  }

  /** A nonzero value has a strictly positive square. */
  lemma SquarePositive(x: real)
    requires x != 0.0
    ensures Square(x) > 0.0
  {
    if x > 0.0 {
      calc { Square(x); == x * x; > { ProductPositive(x, x); } 0.0; }
    } else {
      calc { Square(x); == (-x) * (-x); > { ProductPositive(-x, -x); } 0.0; }
    }
  }

  lemma SquareZero(x: real)
    requires Square(x) == 0.0
    ensures x == 0.0
  {
    if x != 0.0 {
      SquarePositive(x);
    }
  }

  /** Sum of squared deviations from m. */
  function SquaredDeviations(s: seq<real>, m: real): (r: real)
    ensures r >= 0.0
  {
    if s == [] then 0.0
    else SquaredDeviations(s[..|s| - 1], m) + Square(s[|s| - 1] - m)
  }

  /** Sample variance with the source's divisor max(1, n - 1). */
  function SampleVariance(s: seq<real>): (r: real)
    ensures r >= 0.0
  {
    SquaredDeviations(s, Mean(s)) / Max(1.0, (|s| - 1) as real)
  }

  /** std::accumulate(begin, end, 0.0). */
  method Accumulate(s: seq<real>) returns (total: real)
    ensures total == Sum(s)
  {
    total := 0.0;
    var i := 0;
    while i < |s|
      invariant 0 <= i <= |s|
      invariant total == Sum(s[..i])
    {
      SumStep(s, i);
      total := total + s[i];
      i := i + 1;
    }
    assert s[..i] == s;
  }

  lemma SumStep(s: seq<real>, i: nat)
    requires i < |s|
    ensures Sum(s[..i + 1]) == Sum(s[..i]) + s[i]
  {
    assert s[..i + 1][..i] == s[..i];
  }

  lemma SquaredDeviationsStep(s: seq<real>, m: real, i: nat)
    requires i < |s|
    ensures SquaredDeviations(s[..i + 1], m) == SquaredDeviations(s[..i], m) + Square(s[i] - m)
  {
    assert s[..i + 1][..i] == s[..i];
  }

  lemma {:induction false} SumCons(x: real, s: seq<real>)
    ensures Sum([x] + s) == x + Sum(s)
    decreases |s|
  {
    if s != [] {
      var t := s[..|s| - 1];
      assert ([x] + s)[..|s|] == [x] + t;
      SumCons(x, t);
    }
  }

  lemma {:induction false} SumAppend(a: seq<real>, b: seq<real>)
    ensures Sum(a + b) == Sum(a) + Sum(b)
    decreases |b|
  {
    if b == [] {
      assert a + b == a;
    } else {
      var c := b[..|b| - 1];
      assert (a + b)[..|a + b| - 1] == a + c;
      SumAppend(a, c);
    }
  }

  lemma {:induction false} SumNonNegative(s: seq<real>)
    requires forall i :: 0 <= i < |s| ==> s[i] >= 0.0
    ensures Sum(s) >= 0.0
    decreases |s|
  {
    if s != [] {
      SumNonNegative(s[..|s| - 1]);
    }
  }

  /** Every element at most c bounds the sum by |s| * c (and symmetrically from below). */
  lemma {:induction false} SumUpperBound(s: seq<real>, c: real)
    requires forall i :: 0 <= i < |s| ==> s[i] <= c
    ensures Sum(s) <= (|s| as real) * c
    decreases |s|
  {
    if s != [] {
      SumUpperBound(s[..|s| - 1], c);
    }
  }

  lemma {:induction false} SumConstant(s: seq<real>, c: real)
    requires forall i :: 0 <= i < |s| ==> s[i] == c
    ensures Sum(s) == (|s| as real) * c
    decreases |s|
  {
    if s != [] {
      SumConstant(s[..|s| - 1], c);
    }
  }

  /** The mean of values bounded by c is bounded by c. */
  lemma MeanUpperBound(s: seq<real>, c: real)
    requires s != []
    requires forall i :: 0 <= i < |s| ==> s[i] <= c
    ensures Mean(s) <= c
  {
    SumUpperBound(s, c);
    var n := |s| as real;
    assert Sum(s) / n <= (n * c) / n;
  }

  lemma MeanNonNegative(s: seq<real>)
    requires forall i :: 0 <= i < |s| ==> s[i] >= 0.0
    ensures Mean(s) >= 0.0
  {
    SumNonNegative(s);
  }
}
