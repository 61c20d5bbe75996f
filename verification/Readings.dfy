/** What the indicators read, as equations between prices: each reading is determined by products
    and sums of the prices it looks at. */
module Readings {
  import opened Indicators

  /** Cut off at one on both sides. */
  ghost predicate CutOff(r: real, x: real) {
    && (x >= 1.0 ==> r == 1.0)
    && (x <= -1.0 ==> r == -1.0)
    && (-1.0 <= x <= 1.0 ==> r == x)
  }

  lemma {:induction false} ClampCutsOff(x: real)
    ensures CutOff(Clamp(x), x)
  {
  }

  // ------------------------------------------------------------ EMA

  /** The average starts at the first price, and each further price moves it by two parts in
      period + 1 of the way. */
  lemma {:induction false} EmaSays(period: nat, hist: seq<real>, price: real)
    ensures EmaOf(period, [price]) == price
    ensures hist != [] ==>
              var before, after := EmaOf(period, hist), EmaOf(period, hist + [price]);
              (period as real + 1.0) * (after - before) == 2.0 * (price - before)
  {
    if hist != [] {
      assert (hist + [price])[..|hist|] == hist;
      var before := EmaOf(period, hist);
      assert EmaOf(period, hist + [price]) == before + Alpha(period) * (price - before);
      AlphaSays(period, price - before);
    }
  }

  lemma {:induction false} AlphaSays(period: nat, gap: real)
    ensures (period as real + 1.0) * (Alpha(period) * gap) == 2.0 * gap
  {
    var n := period as real + 1.0;
    assert n * Alpha(period) == 2.0;
    assert n * (Alpha(period) * gap) == n * Alpha(period) * gap;
  }

  // ------------------------------------------------------------ momentum

  lemma {:induction false} RatioSays(past: real, now: real, fullScale: real, x: real)
    requires past != 0.0 && fullScale != 0.0 && x * (past * fullScale) == 10_000.0 * (now - past)
    ensures (now - past) / past * 10_000.0 / fullScale == x
  {
    var g := (now - past) / past;
    assert g * past == now - past;
    assert x * fullScale * past == g * 10_000.0 * past;
    SameFactor(x * fullScale, g * 10_000.0, past);
  }

  lemma {:induction false} SameFactor(a: real, b: real, c: real)
    requires c != 0.0 && a * c == b * c
    ensures a == b
  {
    assert (a - b) * c == 0.0;
  }

  /** Momentum compares the last price with the one `lookback` prices before it: it reads the x for
      which x times the past price at full scale is ten thousand times the gain. */
  lemma {:induction false} MomentumSays(lookback: nat, fullScale: real, hist: seq<real>, x: real)
    requires fullScale != 0.0
    ensures var r := MomentumOf(lookback, fullScale, hist);
      && (|hist| <= lookback ==> r == 0.0)
      && (|hist| > lookback ==>
            var past, now := hist[|hist| - 1 - lookback], hist[|hist| - 1];
            && (past == 0.0 ==> r == 0.0)
            && (past != 0.0 && x * (past * fullScale) == 10_000.0 * (now - past) ==> CutOff(r, x)))
  {
    if |hist| > lookback {
      var past, now := hist[|hist| - 1 - lookback], hist[|hist| - 1];
      if past != 0.0 && x * (past * fullScale) == 10_000.0 * (now - past) {
        RatioSays(past, now, fullScale, x);
        ClampCutsOff(x);
      }
    }
  }

  // ------------------------------------------------------------ mean reversion

  function Total(s: seq<real>): real {
    if s == [] then 0.0 else s[0] + Total(s[1..])
  }

  function SquaredDistance(x: real, m: real): real {
    (x - m) * (x - m)
  }

  /** The squared distances from m, summed up. */
  function Scatter(s: seq<real>, m: real): real {
    if s == [] then 0.0 else SquaredDistance(s[0], m) + Scatter(s[1..], m)
  }

  lemma {:induction false} SumIsTotal(s: seq<real>)
    ensures Sum(s) == Total(s)
  {
    if s != [] {
      SumsDropFirst(s);
      SumIsTotal(s[1..]);
    }
  }

  function AboutMean(sumSq: real, sum: real, n: real, m: real): real {
    sumSq - 2.0 * m * sum + n * (m * m)
  }

  lemma {:induction false} AboutMeanStep(x: real, m: real, sumSq: real, sum: real, n: real)
    ensures SquaredDistance(x, m) + AboutMean(sumSq - Square(x), sum - x, n - 1.0, m) == AboutMean(sumSq, sum, n, m)
  {
    var k := m * m;
    assert SquaredDistance(x, m) == x * x - 2.0 * m * x + k;
    assert 2.0 * m * (sum - x) == 2.0 * m * sum - 2.0 * m * x;
    assert (n - 1.0) * k == n * k - k;
  }

  lemma {:induction false} ScatterOfSums(s: seq<real>, m: real)
    ensures Scatter(s, m) == AboutMean(SumSq(s), Sum(s), |s| as real, m)
  {
    if s == [] {
      assert AboutMean(0.0, 0.0, 0.0, m) == 0.0;
    } else {
      hide AboutMean, Square, SquaredDistance, Sum, SumSq;
      SumsDropFirst(s);
      ScatterOfSums(s[1..], m);
      AboutMeanStep(s[0], m, SumSq(s), Sum(s), |s| as real);
    }
  }

  lemma {:induction false} MeansOf(n: real, sum: real, sumSq: real, mean: real, variance: real)
    requires n != 0.0 && mean * n == sum && variance * n == AboutMean(sumSq, sum, n, mean)
    ensures mean == sum / n && variance == sumSq / n - mean * mean
  {
    var k, q := mean * mean, sumSq / n;
    assert 2.0 * mean * sum == 2.0 * (k * n);
    assert q * n == sumSq;
    assert (q - k) * n == variance * n;
    SameFactor(q - k, variance, n);
  }

  /** The mean and the mean squared distance are those the running sums give. */
  lemma {:induction false} SumsSay(w: seq<real>, mean: real, variance: real)
    requires w != [] && mean * |w| as real == Total(w) && variance * |w| as real == Scatter(w, mean)
    ensures mean == Sum(w) / |w| as real
    ensures variance == SumSq(w) / |w| as real - mean * mean
  {
    hide AboutMean, Scatter, Total, Sum, SumSq;
    SumIsTotal(w);
    ScatterOfSums(w, mean);
    MeansOf(|w| as real, Sum(w), SumSq(w), mean, variance);
  }

  lemma {:induction false} HalfNegated(now: real, mean: real, std: real, z: real)
    requires std > 0.0 && z * std == now - mean
    ensures -((now - mean) / std) / 2.0 == -z / 2.0
  {
    SameFactor((now - mean) / std, z, std);
  }

  /** Mean reversion looks at the last `window` prices: with their mean, their mean squared
      distance from it, and z deviations from the mean to the last price, it reads -z / 2. */
  lemma {:induction false} ReversionSays(window: nat, sqrt: SqrtFn, hist: seq<real>,
                                         mean: real, variance: real, z: real)
    requires window >= 1
    ensures |hist| < window ==> ReversionOf(window, sqrt, hist) == 0.0
    ensures |hist| >= window ==>
              var w, r := hist[|hist| - window..], ReversionOf(window, sqrt, hist);
              && |w| == window
              && (mean * window as real == Total(w) && variance * window as real == Scatter(w, mean) ==>
                    && (variance <= 0.000000000001 ==> r == 0.0)
                    && (variance > 0.000000000001 && z * sqrt(variance) == hist[|hist| - 1] - mean ==>
                          CutOff(r, -z / 2.0)))
  {
    hide Sum, SumSq, Total, Scatter;
    if |hist| >= window {
      var w := hist[|hist| - window..];
      assert Recent(hist, window) == w;
      if mean * window as real == Total(w) && variance * window as real == Scatter(w, mean) {
        SumsSay(w, mean, variance);
        if variance > 0.000000000001 && z * sqrt(variance) == hist[|hist| - 1] - mean {
          HalfNegated(hist[|hist| - 1], mean, sqrt(variance), z);
          ClampCutsOff(-z / 2.0);
        }
      }
    }
  }
}
