/** The indicators as plain functions of the price history, over the reals.

    Both implementations, the fixed strategy's deques and the bytecode VM's ring buffers, are
    proved equal to these. */
module Indicators {

  /** A square root as far as it matters: positive on positive arguments. */
  type SqrtFn = f: real -> real | forall x :: x > 0.0 ==> f(x) > 0.0 witness (x: real) => 1.0

  function Last(hist: seq<real>): real
    requires hist != []
  {
    hist[|hist| - 1]
  }

  function Clamp(x: real): (r: real)
    ensures -1.0 <= r <= 1.0
    ensures -1.0 <= x <= 1.0 ==> r == x
  {
    if x < -1.0 then -1.0 else if x > 1.0 then 1.0 else x
  }

  function Sum(s: seq<real>): real {
    if s == [] then 0.0 else Sum(s[..|s| - 1]) + Last(s)
  }

  function Square(x: real): real {
    x * x
  }

  function SumSq(s: seq<real>): real {
    if s == [] then 0.0 else SumSq(s[..|s| - 1]) + Square(Last(s))
  }

  /** The last n prices, or all of them when there are fewer. */
  function Recent(hist: seq<real>, n: nat): seq<real> {
    if |hist| <= n then hist else hist[|hist| - n..]
  }

  // ------------------------------------------------------------ EMA

  function Alpha(period: nat): real {
    2.0 / (period as real + 1.0)
  }

  function EmaOf(period: nat, hist: seq<real>): real {
    if hist == [] then 0.0
    else if |hist| == 1 then hist[0]
    else
      var before := EmaOf(period, hist[..|hist| - 1]);
      before + Alpha(period) * (Last(hist) - before)
  }

  // ------------------------------------------------------------ momentum

  /** A return in basis points, scaled and clamped. */
  function MomentumReading(past: real, now: real, fullScale: real): (r: real)
    requires fullScale != 0.0
    ensures -1.0 <= r <= 1.0
  {
    if past == 0.0 then 0.0
    else Clamp((now - past) / past * 10_000.0 / fullScale)
  }

  /** The return over the lookback; silent until there is a price that far back. */
  function MomentumOf(lookback: nat, fullScale: real, hist: seq<real>): (r: real)
    requires fullScale != 0.0
    ensures -1.0 <= r <= 1.0
  {
    if |hist| <= lookback then 0.0
    else MomentumReading(hist[|hist| - 1 - lookback], Last(hist), fullScale)
  }

  // ------------------------------------------------------------ mean reversion

  function Mean(w: seq<real>): real
    requires w != []
  {
    Sum(w) / |w| as real
  }

  function Variance(w: seq<real>): real
    requires w != []
  {
    SumSq(w) / |w| as real - Mean(w) * Mean(w)
  }

  /** The negated z-score of a price among n prices with the given sums, halved and clamped. */
  function ReversionReading(now: real, n: nat, sum: real, sumSq: real, sqrt: SqrtFn): (r: real)
    requires n > 0
    ensures -1.0 <= r <= 1.0
  {
    var mean := sum / n as real;
    var variance := sumSq / n as real - mean * mean;
    if variance <= 0.000000000001 then 0.0
    else Clamp(-((now - mean) / sqrt(variance)) / 2.0)
  }

  /** The reading of the last price in its window; silent until the window is full. */
  function ReversionOf(window: nat, sqrt: SqrtFn, hist: seq<real>): (r: real)
    requires window >= 1
    ensures -1.0 <= r <= 1.0
  {
    if |hist| < window then 0.0
    else
      var w := Recent(hist, window);
      ReversionReading(Last(hist), window, Sum(w), SumSq(w), sqrt)
  }

  // ------------------------------------------------------------ what the formulas satisfy

  lemma {:induction false} SumsAppend(s: seq<real>, x: real)
    ensures Sum(s + [x]) == Sum(s) + x
    ensures SumSq(s + [x]) == SumSq(s) + Square(x)
  {
    hide Square;
    assert (s + [x])[..|s|] == s;
  }

  /** Dropping the oldest price takes it, and its square, off the sums. */
  lemma {:induction false} SumsDropFirst(s: seq<real>)
    requires s != []
    ensures Sum(s[1..]) == Sum(s) - s[0]
    ensures SumSq(s[1..]) == SumSq(s) - Square(s[0])
  {
    hide Square;
    var front := s[..|s| - 1];
    if |s| > 1 {
      SumsDropFirst(front);
      assert s[1..][..|s| - 2] == front[1..];
      assert Last(s[1..]) == Last(s);
    }
  }

  /** The sum of squared distances from x, which is never negative. */
  lemma {:induction false} SpreadNonNegative(s: seq<real>, x: real)
    ensures SumSq(s) - 2.0 * x * Sum(s) + |s| as real * x * x >= 0.0
  {
    if s != [] {
      var y := Last(s);
      SpreadNonNegative(s[..|s| - 1], x);
      assert y * y - 2.0 * x * y + x * x == (y - x) * (y - x);
      assert (y - x) * (y - x) >= 0.0;
      assert |s| as real * x * x == (|s| - 1) as real * x * x + x * x;
    }
  }

  /** The running-sums variance is a true variance: never negative. */
  lemma {:induction false} VarianceNonNegative(w: seq<real>)
    requires w != []
    ensures Variance(w) >= 0.0
  {
    var n, m := |w| as real, Mean(w);
    SpreadNonNegative(w, m);
    assert Sum(w) == m * n;
    assert SumSq(w) - 2.0 * m * (m * n) + n * m * m >= 0.0;
    assert SumSq(w) - n * (m * m) >= 0.0;
    assert SumSq(w) / n - m * m == (SumSq(w) - n * (m * m)) / n;
  }

  predicate Within(s: seq<real>, lo: real, hi: real) {
    forall i :: 0 <= i < |s| ==> lo <= s[i] <= hi
  }

  lemma {:induction false} AlphaRange(period: nat)
    requires period >= 1
    ensures 0.0 < Alpha(period) <= 1.0
  {
  }

  lemma {:induction false} ProductNonNegative(a: real, b: real)
    requires a >= 0.0 && b >= 0.0
    ensures a * b >= 0.0
  {
  }

  lemma {:induction false} Between(a: real, x: real, y: real, lo: real, hi: real)
    requires 0.0 <= a <= 1.0 && lo <= x <= hi && lo <= y <= hi
    ensures lo <= x + a * (y - x) <= hi
  {
    var b := 1.0 - a;
    ProductNonNegative(b, x - lo);
    ProductNonNegative(a, y - lo);
    ProductNonNegative(b, hi - x);
    ProductNonNegative(a, hi - y);
    assert x + a * (y - x) - lo == b * (x - lo) + a * (y - lo);
    assert hi - (x + a * (y - x)) == b * (hi - x) + a * (hi - y);
  }

  /** For a period of at least one, an EMA stays within the range of its history. */
  lemma {:induction false} EmaWithinRange(period: nat, hist: seq<real>, lo: real, hi: real)
    requires period >= 1 && hist != [] && Within(hist, lo, hi)
    ensures lo <= EmaOf(period, hist) <= hi
  {
    if |hist| > 1 {
      var before := hist[..|hist| - 1];
      EmaWithinRange(period, before, lo, hi);
      AlphaRange(period);
      Between(Alpha(period), EmaOf(period, before), Last(hist), lo, hi);
    }
  }

  predicate Constant(hist: seq<real>, p: real) {
    forall i :: 0 <= i < |hist| ==> hist[i] == p
  }

  lemma {:induction false} SumsOfConstant(s: seq<real>, p: real)
    requires Constant(s, p)
    ensures Sum(s) == |s| as real * p && SumSq(s) == |s| as real * (p * p)
  {
    if s != [] {
      SumsOfConstant(s[..|s| - 1], p);
      assert |s| as real * p == (|s| - 1) as real * p + p;
      assert |s| as real * (p * p) == (|s| - 1) as real * (p * p) + p * p;
    }
  }

  lemma {:induction false} EmaOfConstant(period: nat, hist: seq<real>, p: real)
    requires hist != [] && Constant(hist, p)
    ensures EmaOf(period, hist) == p
  {
    if |hist| > 1 { EmaOfConstant(period, hist[..|hist| - 1], p); }
  }

  lemma {:induction false} MomentumOfConstant(lookback: nat, fullScale: real, hist: seq<real>, p: real)
    requires hist != [] && Constant(hist, p) && fullScale != 0.0
    ensures MomentumOf(lookback, fullScale, hist) == 0.0
  {
    if |hist| > lookback && p != 0.0 {
      assert 0.0 / p * 10_000.0 / fullScale == 0.0;
    }
  }

  lemma {:induction false} VarianceOfConstant(w: seq<real>, p: real)
    requires w != [] && Constant(w, p)
    ensures Variance(w) == 0.0
  {
    SumsOfConstant(w, p);
    Cancels(|w| as real, p);
    Cancels(|w| as real, p * p);
  }

  lemma {:induction false} ReversionOfConstant(window: nat, sqrt: SqrtFn, hist: seq<real>, p: real)
    requires hist != [] && Constant(hist, p) && window >= 1
    ensures ReversionOf(window, sqrt, hist) == 0.0
  {
    if |hist| >= window {
      VarianceOfConstant(Recent(hist, window), p);
    }
  }

  lemma {:induction false} Cancels(n: real, x: real)
    requires n != 0.0
    ensures n * x / n == x
  {
  }

  lemma {:induction false} RecentEnds(hist: seq<real>, n: nat)
    requires n >= 1
    ensures |Recent(hist, n)| == if |hist| < n then |hist| else n
    ensures hist != [] ==> Last(Recent(hist, n)) == Last(hist)
    ensures |hist| >= n ==> Recent(hist, n)[0] == hist[|hist| - n]
  {
  }

  /** Pushing a price onto the recent ones and trimming gives the recent ones of the longer history. */
  lemma {:induction false} RecentPush(hist: seq<real>, price: real, n: nat)
    ensures Recent(hist + [price], n) == Recent(Recent(hist, n) + [price], n)
  {
  }
}
