/** Which way the strategy leans: trend and momentum follow the market, mean reversion fades it. */
module Directions {
  import opened Cooldown
  import opened Indicators
  import opened Strategy

  /** The two signs of a hyperbolic tangent. */
  ghost predicate KeepsSign(tanh: TanhFn) {
    forall x :: (x >= 0.0 ==> tanh(x) >= 0.0) && (x <= 0.0 ==> tanh(x) <= 0.0)
  }

  predicate Positive(hist: seq<real>) {
    forall i :: 0 <= i < |hist| ==> hist[i] > 0.0
  }

  predicate Rising(hist: seq<real>) {
    forall i :: 1 <= i < |hist| ==> hist[i - 1] <= hist[i]
  }

  predicate Falling(hist: seq<real>) {
    forall i :: 1 <= i < |hist| ==> hist[i - 1] >= hist[i]
  }

  lemma {:induction false} PrefixKeeps(hist: seq<real>, k: nat)
    requires k <= |hist|
    ensures Rising(hist) ==> Rising(hist[..k])
    ensures Falling(hist) ==> Falling(hist[..k])
    ensures Positive(hist) ==> Positive(hist[..k])
  {
    var h := hist[..k];
    assert forall i :: 0 <= i < k ==> h[i] == hist[i];
  }

  lemma {:induction false} Span(hist: seq<real>, i: nat, j: nat)
    requires i <= j < |hist|
    ensures Rising(hist) ==> hist[i] <= hist[j]
    ensures Falling(hist) ==> hist[i] >= hist[j]
  {
    if i < j { Span(hist, i, j - 1); }
  }

  // ------------------------------------------------------------ the two averages

  function Toward(from: real, share: real, x: real): real {
    from + share * (x - from)
  }

  /** Starting nearer and taking the larger share of the way leads, and overshoots nothing. */
  lemma {:induction false} LargerShareLeads(a: real, b: real, fast: real, slow: real, x: real)
    requires 0.0 <= b <= a <= 1.0 && slow <= fast <= x
    ensures Toward(slow, b, x) <= Toward(fast, a, x) <= x
  {
    var c, d := 1.0 - a, 1.0 - b;
    ProductNonNegative(c, x - fast);
    ProductNonNegative(d - c, x - slow);
    ProductNonNegative(c, fast - slow);
    assert x - Toward(fast, a, x) == c * (x - fast);
    assert Toward(fast, a, x) - Toward(slow, b, x) == (d - c) * (x - slow) + c * (fast - slow);
  }

  lemma {:induction false} TowardNegates(from: real, share: real, x: real)
    ensures Toward(-from, share, -x) == -Toward(from, share, x)
  {
  }

  lemma {:induction false} EmaIsToward(period: nat, hist: seq<real>)
    requires |hist| > 1
    ensures EmaOf(period, hist) == Toward(EmaOf(period, hist[..|hist| - 1]), Alpha(period), Last(hist))
  {
  }

  lemma {:induction false} AlphasOrdered(fast: nat, slow: nat)
    requires 1 <= fast <= slow
    ensures 0.0 < Alpha(slow) <= Alpha(fast) <= 1.0
  {
    var m, n := fast as real + 1.0, slow as real + 1.0;
    assert 2.0 / m - 2.0 / n == 2.0 * (n - m) / (m * n) by {
      assert 2.0 / m * m == 2.0 && 2.0 / n * n == 2.0;
      assert (2.0 / m - 2.0 / n) * (m * n) == 2.0 / m * m * n - 2.0 / n * n * m;
    }
  }

  /** In a rising market the shorter average leads the longer one from below the price, and in a
      falling market from above. */
  lemma {:induction false} ShorterLeads(fast: nat, slow: nat, hist: seq<real>)
    requires 1 <= fast <= slow && hist != []
    ensures Rising(hist) ==> EmaOf(slow, hist) <= EmaOf(fast, hist) <= Last(hist)
    ensures Falling(hist) ==> EmaOf(slow, hist) >= EmaOf(fast, hist) >= Last(hist)
  {
    if |hist| > 1 {
      hide EmaOf, Alpha, Toward;
      var before, x := hist[..|hist| - 1], Last(hist);
      var a, b, f, s := Alpha(fast), Alpha(slow), EmaOf(fast, before), EmaOf(slow, before);
      ShorterLeads(fast, slow, before);
      AlphasOrdered(fast, slow);
      EmaIsToward(fast, hist);
      EmaIsToward(slow, hist);
      PrefixKeeps(hist, |hist| - 1);
      Span(hist, |hist| - 2, |hist| - 1);
      hide Rising, Falling;
      if Rising(hist) {
        assert Rising(before) && Last(before) <= x;
        LargerShareLeads(a, b, f, s, x);
      }
      if Falling(hist) {
        assert Falling(before) && Last(before) >= x;
        LargerShareLeads(a, b, -f, -s, -x);
        TowardNegates(f, a, x);
        TowardNegates(s, b, x);
      }
    }
  }

  // ------------------------------------------------------------ the three signals

  lemma {:induction false} QuotientSign(x: real, d: real)
    requires d > 0.0
    ensures (x >= 0.0 ==> x / d >= 0.0) && (x <= 0.0 ==> x / d <= 0.0)
  {
    assert x / d * d == x;
  }

  lemma {:induction false} TrendReadingSign(tanh: TanhFn, fast: real, slow: real)
    requires slow > 0.0 && KeepsSign(tanh)
    ensures fast >= slow ==> TrendReading(tanh, fast, slow) >= 0.0
    ensures fast <= slow ==> TrendReading(tanh, fast, slow) <= 0.0
  {
    QuotientSign(fast - slow, slow);
  }

  lemma {:induction false} TrendFollows(cfg: Config, maths: Maths, hist: seq<real>)
    requires 1 <= cfg.fastEmaPeriod <= cfg.slowEmaPeriod && KeepsSign(maths.tanh)
    requires Positive(hist)
    ensures Rising(hist) ==> TrendOf(cfg, maths, hist) >= 0.0
    ensures Falling(hist) ==> TrendOf(cfg, maths, hist) <= 0.0
  {
    if hist != [] {
      hide EmaOf, TrendReading, Rising, Falling, KeepsSign;
      ShorterLeads(cfg.fastEmaPeriod, cfg.slowEmaPeriod, hist);
      EmaPositive(cfg.slowEmaPeriod, hist);
      TrendReadingSign(maths.tanh, EmaOf(cfg.fastEmaPeriod, hist), EmaOf(cfg.slowEmaPeriod, hist));
    }
  }

  lemma {:induction false} EmaPositive(period: nat, hist: seq<real>)
    requires period >= 1 && hist != [] && Positive(hist)
    ensures EmaOf(period, hist) > 0.0
  {
    if |hist| > 1 {
      hide Toward, EmaOf, Alpha;
      var before := EmaOf(period, hist[..|hist| - 1]);
      EmaPositive(period, hist[..|hist| - 1]);
      EmaIsToward(period, hist);
      AlphaRange(period);
      BetweenPositive(before, Alpha(period), Last(hist));
    }
  }

  lemma {:induction false} BetweenPositive(x: real, a: real, y: real)
    requires x > 0.0 && y > 0.0 && 0.0 < a <= 1.0
    ensures Toward(x, a, y) > 0.0
  {
    Between(a, x, y, if x < y then x else y, if x < y then y else x);
  }

  lemma {:induction false} MomentumFollows(lookback: nat, fullScale: real, hist: seq<real>)
    requires fullScale > 0.0 && Positive(hist)
    ensures Rising(hist) ==> MomentumOf(lookback, fullScale, hist) >= 0.0
    ensures Falling(hist) ==> MomentumOf(lookback, fullScale, hist) <= 0.0
  {
    if |hist| > lookback {
      var past, now := hist[|hist| - 1 - lookback], Last(hist);
      Span(hist, |hist| - 1 - lookback, |hist| - 1);
      hide Rising, Falling;
      QuotientSign(now - past, past);
      QuotientSign((now - past) / past * 10_000.0, fullScale);
    }
  }

  lemma {:induction false} ReversionReadingSign(now: real, n: nat, sum: real, sumSq: real, sqrt: SqrtFn)
    requires n > 0
    ensures sum <= n as real * now ==> ReversionReading(now, n, sum, sumSq, sqrt) <= 0.0
    ensures sum >= n as real * now ==> ReversionReading(now, n, sum, sumSq, sqrt) >= 0.0
  {
    var mean := sum / n as real;
    MeanSide(n as real, sum, now);
    FadedSign(now, mean, sumSq / n as real - mean * mean, sqrt);
  }

  lemma {:induction false} FadedSign(now: real, mean: real, variance: real, sqrt: SqrtFn)
    ensures variance > 0.0 && mean <= now ==> Clamp(-((now - mean) / sqrt(variance)) / 2.0) <= 0.0
    ensures variance > 0.0 && mean >= now ==> Clamp(-((now - mean) / sqrt(variance)) / 2.0) >= 0.0
  {
    if variance > 0.0 { QuotientSign(now - mean, sqrt(variance)); }
  }

  lemma {:induction false} MeanSide(n: real, sum: real, x: real)
    requires n > 0.0
    ensures sum <= n * x ==> sum / n <= x
    ensures sum >= n * x ==> sum / n >= x
  {
    QuotientSign(sum - n * x, n);
    assert (sum - n * x) / n == sum / n - x;
  }

  /** No earlier price is higher, or none is lower. */
  predicate AtTop(hist: seq<real>, x: real) {
    forall i :: 0 <= i < |hist| ==> hist[i] <= x
  }

  predicate AtBottom(hist: seq<real>, x: real) {
    forall i :: 0 <= i < |hist| ==> hist[i] >= x
  }

  lemma {:induction false} RecentWithin(hist: seq<real>, n: nat, x: real)
    ensures AtTop(hist, x) ==> AtTop(Recent(hist, n), x)
    ensures AtBottom(hist, x) ==> AtBottom(Recent(hist, n), x)
  {
  }

  /** Mean reversion fades: nothing to buy at the top of the window, nothing to sell at its bottom. */
  lemma {:induction false} ReversionFades(window: nat, sqrt: SqrtFn, hist: seq<real>)
    requires window >= 1 && hist != []
    ensures AtTop(hist, Last(hist)) ==> ReversionOf(window, sqrt, hist) <= 0.0
    ensures AtBottom(hist, Last(hist)) ==> ReversionOf(window, sqrt, hist) >= 0.0
  {
    hide ReversionReading, Sum, SumSq, AtTop, AtBottom;
    if |hist| >= window {
      var w := Recent(hist, window);
      RecentWithin(hist, window, Last(hist));
      SumBetween(w, Last(hist));
      ReversionReadingSign(Last(hist), window, Sum(w), SumSq(w), sqrt);
    }
  }

  lemma {:induction false} OneMore(n: real, sum: real, y: real, x: real)
    ensures sum <= n * x && y <= x ==> sum + y <= (n + 1.0) * x
    ensures sum >= n * x && y >= x ==> sum + y >= (n + 1.0) * x
  {
    assert (n + 1.0) * x == n * x + x;
  }

  lemma {:induction false} BoundsInit(s: seq<real>, x: real)
    requires s != []
    ensures AtTop(s, x) ==> AtTop(s[..|s| - 1], x) && Last(s) <= x
    ensures AtBottom(s, x) ==> AtBottom(s[..|s| - 1], x) && Last(s) >= x
  {
  }

  lemma {:induction false} SumBetween(s: seq<real>, x: real)
    ensures AtTop(s, x) ==> Sum(s) <= |s| as real * x
    ensures AtBottom(s, x) ==> Sum(s) >= |s| as real * x
  {
    hide AtTop, AtBottom;
    if s == [] {
      assert 0.0 * x == 0.0;
    } else {
      var init := s[..|s| - 1];
      BoundsInit(s, x);
      SumBetween(init, x);
      OneMore(|init| as real, Sum(init), Last(s), x);
    }
  }

  // ------------------------------------------------------------ the strategy

  lemma {:induction false} SumSign(a: real, b: real, x: real, y: real, z: real)
    requires a >= 0.0 && b >= 0.0
    ensures x >= 0.0 && y >= 0.0 ==> WeightedSum(a, b, 0.0, x, y, z) >= 0.0
    ensures x <= 0.0 && y <= 0.0 ==> WeightedSum(a, b, 0.0, x, y, z) <= 0.0
  {
    if x >= 0.0 && y >= 0.0 {
      ProductNonNegative(a, x);
      ProductNonNegative(b, y);
    }
    if x <= 0.0 && y <= 0.0 {
      ProductNonNegative(a, -x);
      ProductNonNegative(b, -y);
    }
  }

  lemma {:induction false} ReachesSign(sum: real, w: real, threshold: real)
    requires w > 0.0 && threshold > 0.0
    ensures sum >= 0.0 ==> !Reaches(sum, w, threshold, Sell)
    ensures sum <= 0.0 ==> !Reaches(sum, w, threshold, Buy)
  {
    assert threshold * w > 0.0;
  }

  lemma {:induction false} CallsFollow(cfg: Config, maths: Maths, hist: seq<real>)
    requires cfg.Usable() && KeepsSign(maths.tanh) && Positive(hist)
    requires 1 <= cfg.fastEmaPeriod <= cfg.slowEmaPeriod && cfg.momentumBpsFullScale > 0.0 && cfg.threshold > 0.0
    requires cfg.weightTrend >= 0.0 && cfg.weightMomentum >= 0.0 && cfg.weightReversion == 0.0
    ensures Rising(hist) ==> !Calls(cfg, maths, hist, Sell)
    ensures Falling(hist) ==> !Calls(cfg, maths, hist, Buy)
  {
    hide EmaOf, MomentumOf, ReversionOf, TrendOf, WeightedSum, Reaches, Rising, Falling, KeepsSign, Positive;
    TrendFollows(cfg, maths, hist);
    MomentumFollows(cfg.momentumLookback, cfg.momentumBpsFullScale, hist);
    SumSign(cfg.weightTrend, cfg.weightMomentum, TrendOf(cfg, maths, hist),
            MomentumOf(cfg.momentumLookback, cfg.momentumBpsFullScale, hist),
            ReversionOf(cfg.reversionWindow, maths.sqrt, hist));
    var w := cfg.weightTrend + cfg.weightMomentum + cfg.weightReversion;
    if w > 0.0 { ReachesSign(Weighed(cfg, maths, hist), w, cfg.threshold); }
  }

  /** Without mean reversion the strategy follows the market: it never sells while prices only rise
      and never buys while they only fall. */
  lemma {:induction false} FollowsTheMarket(cfg: Config, maths: Maths, hist: seq<real>, k: nat)
    requires cfg.Usable() && 1 <= k <= |hist| && KeepsSign(maths.tanh) && Positive(hist)
    requires 1 <= cfg.fastEmaPeriod <= cfg.slowEmaPeriod && cfg.momentumBpsFullScale > 0.0 && cfg.threshold > 0.0
    requires cfg.weightTrend >= 0.0 && cfg.weightMomentum >= 0.0 && cfg.weightReversion == 0.0
    ensures var d := DecisionAt(cfg, maths, hist[..k]);
      && (Rising(hist) && d.Trade? ==> d.side == Buy)
      && (Falling(hist) && d.Trade? ==> d.side == Sell)
  {
    hide Rising, Falling, Positive, KeepsSign, Calls, MayTrade, DecisionAt, IsMean, Weighed;
    PrefixKeeps(hist, k);
    CallsFollow(cfg, maths, hist[..k]);
    DecisionIff(cfg, maths, hist, k, Buy);
    DecisionIff(cfg, maths, hist, k, Sell);
  }

  /** On mean reversion alone it fades the market: it never buys at the highest price so far and
      never sells at the lowest. */
  lemma {:induction false} FadesTheMarket(cfg: Config, maths: Maths, hist: seq<real>)
    requires cfg.Usable() && hist != [] && cfg.threshold > 0.0
    requires cfg.weightTrend == 0.0 && cfg.weightMomentum == 0.0 && cfg.weightReversion > 0.0
    ensures var d := DecisionAt(cfg, maths, hist);
      && (AtTop(hist, Last(hist)) && d.Trade? ==> d.side == Sell)
      && (AtBottom(hist, Last(hist)) && d.Trade? ==> d.side == Buy)
  {
    hide EmaOf, MomentumOf, ReversionOf, TrendOf, DecisionAt, WeightedSum, MayTrade, Reaches, IsMean;
    assert hist[..|hist|] == hist;
    DecisionIff(cfg, maths, hist, |hist|, Buy);
    DecisionIff(cfg, maths, hist, |hist|, Sell);
    ReversionFades(cfg.reversionWindow, maths.sqrt, hist);
    OneWeight(cfg.weightReversion, TrendOf(cfg, maths, hist),
              MomentumOf(cfg.momentumLookback, cfg.momentumBpsFullScale, hist),
              ReversionOf(cfg.reversionWindow, maths.sqrt, hist));
    ReachesSign(Weighed(cfg, maths, hist), cfg.weightReversion, cfg.threshold);
  }

  lemma {:induction false} OneWeight(c: real, x: real, y: real, z: real)
    requires c > 0.0
    ensures z >= 0.0 ==> WeightedSum(0.0, 0.0, c, x, y, z) >= 0.0
    ensures z <= 0.0 ==> WeightedSum(0.0, 0.0, c, x, y, z) <= 0.0
  {
    if z >= 0.0 { ProductNonNegative(c, z); } else { ProductNonNegative(c, -z); }
  }
}
