/** The composite strategy: three blended signals, a threshold and a cooldown. */
module Strategy {
  import opened Cooldown
  import opened Indicators
  import opened Options
  import opened Readings

  /** A hyperbolic tangent as far as it matters: bounded, and zero at zero. */
  type TanhFn = f: real -> real | (forall x :: -1.0 <= f(x) <= 1.0) && f(0.0) == 0.0 witness (x: real) => 0.0

  datatype Decision = Trade(side: Side, score: real) | Hold

  /** The two functions of the floating-point library the strategy calls. */
  datatype Maths = Maths(sqrt: SqrtFn, tanh: TanhFn)

  /** Tunable parameters. */
  datatype Config = Config(
    fastEmaPeriod: nat, slowEmaPeriod: nat, momentumLookback: nat, reversionWindow: nat,
    weightTrend: real, weightMomentum: real, weightReversion: real,
    threshold: real, momentumBpsFullScale: real, cooldownTicks: nat)
  {
    /** A zero window leaves no last price to compare; a zero scale divides by zero. */
    predicate Usable() {
      reversionWindow >= 1 && momentumBpsFullScale != 0.0
    }

    function TotalWeight(): real {
      weightTrend + weightMomentum + weightReversion
    }
  }

  // ------------------------------------------------------------ decisions as functions of the history

  function TrendReading(tanh: TanhFn, fast: real, slow: real): (r: real)
    ensures -1.0 <= r <= 1.0
  {
    if slow == 0.0 then 0.0 else tanh((fast - slow) / slow * 200.0)
  }

  function TrendOf(cfg: Config, maths: Maths, hist: seq<real>): (r: real)
    ensures -1.0 <= r <= 1.0
  {
    if hist == [] then 0.0
    else TrendReading(maths.tanh, EmaOf(cfg.fastEmaPeriod, hist), EmaOf(cfg.slowEmaPeriod, hist))
  }

  /** A gap of y two-hundredths of the slow average. */
  predicate IsGap(fast: real, slow: real, y: real) {
    slow != 0.0 && y * slow == 200.0 * (fast - slow)
  }

  /** Trend compares the two averages: it is the hyperbolic tangent of their gap in two-hundredths of
      the slow one. */
  lemma {:induction false} TrendSays(cfg: Config, maths: Maths, hist: seq<real>, y: real)
    ensures hist == [] ==> TrendOf(cfg, maths, hist) == 0.0
    ensures hist != [] ==>
              var fast, slow := EmaOf(cfg.fastEmaPeriod, hist), EmaOf(cfg.slowEmaPeriod, hist);
              && (slow == 0.0 ==> TrendOf(cfg, maths, hist) == 0.0)
              && (IsGap(fast, slow, y) ==> TrendOf(cfg, maths, hist) == maths.tanh(y))
  {
    hide EmaOf, TrendReading, IsGap;
    TrendReadingSays(maths.tanh, EmaOf(cfg.fastEmaPeriod, hist), EmaOf(cfg.slowEmaPeriod, hist), y);
  }

  lemma {:induction false} TrendReadingSays(tanh: TanhFn, fast: real, slow: real, y: real)
    ensures slow == 0.0 ==> TrendReading(tanh, fast, slow) == 0.0
    ensures IsGap(fast, slow, y) ==> TrendReading(tanh, fast, slow) == tanh(y)
  {
    if IsGap(fast, slow, y) {
      var g := (fast - slow) / slow;
      assert g * slow == fast - slow;
      assert g * 200.0 * slow == 200.0 * (g * slow);
      SameFactor(g * 200.0, y, slow);
    }
  }

  /** The weighted mean of the three signals. */
  function Blend(a: real, b: real, c: real, trend: real, momentum: real, reversion: real): real
    requires a + b + c > 0.0
  {
    (a * trend + b * momentum + c * reversion) / (a + b + c)
  }

  function ScoreOf(cfg: Config, maths: Maths, hist: seq<real>): real
    requires cfg.Usable() && cfg.TotalWeight() > 0.0
  {
    Blend(cfg.weightTrend, cfg.weightMomentum, cfg.weightReversion, TrendOf(cfg, maths, hist),
          MomentumOf(cfg.momentumLookback, cfg.momentumBpsFullScale, hist),
          ReversionOf(cfg.reversionWindow, maths.sqrt, hist))
  }

  /** The side a score asks for, before the cooldown. */
  function SideFor(threshold: real, score: real): Option<Side> {
    if score >= threshold then Some(Buy) else if score <= -threshold then Some(Sell) else None
  }

  function WishOf(cfg: Config, maths: Maths, hist: seq<real>): Option<Side>
    requires cfg.Usable()
  {
    if cfg.TotalWeight() <= 0.0 then None else SideFor(cfg.threshold, ScoreOf(cfg, maths, hist))
  }

  /** What the strategy wanted on each price of a history. */
  function Wishes(cfg: Config, maths: Maths, hist: seq<real>): (w: seq<Option<Side>>)
    requires cfg.Usable()
    ensures |w| == |hist|
  {
    if hist == [] then [] else Wishes(cfg, maths, hist[..|hist| - 1]) + [WishOf(cfg, maths, hist)]
  }

  /** The decision on the last price of a history. */
  function DecisionAt(cfg: Config, maths: Maths, hist: seq<real>): Decision
    requires cfg.Usable() && hist != []
  {
    if Trades(cfg.cooldownTicks, Wishes(cfg, maths, hist), |hist|)
    then Trade(WishOf(cfg, maths, hist).value, ScoreOf(cfg, maths, hist)) else Hold
  }

  // ------------------------------------------------------------ properties of whole runs

  lemma {:induction false} WishesPrefix(cfg: Config, maths: Maths, hist: seq<real>, n: nat)
    requires cfg.Usable() && n <= |hist|
    ensures Wishes(cfg, maths, hist[..n]) == Wishes(cfg, maths, hist)[..n]
  {
    if n == |hist| {
      assert hist[..n] == hist;
    } else {
      assert hist[..|hist| - 1][..n] == hist[..n];
      WishesPrefix(cfg, maths, hist[..|hist| - 1], n);
    }
  }

  lemma {:induction false} NothingYet(cfg: Config, maths: Maths)
    requires cfg.Usable()
    ensures LastTrade(cfg.cooldownTicks, Wishes(cfg, maths, [])) == None
    ensures Recent([], cfg.momentumLookback + 1) == [] && Recent([], cfg.reversionWindow) == []
    ensures Sum([]) == 0.0 && SumSq([]) == 0.0
  {
  }

  /** One more price: the wish it raises, and whether the cooldown grants it. */
  lemma {:induction false} DecisionStep(cfg: Config, maths: Maths, hist: seq<real>, price: real)
    requires cfg.Usable()
    ensures var h := hist + [price];
      var last, wish := LastTrade(cfg.cooldownTicks, Wishes(cfg, maths, hist)), WishOf(cfg, maths, h);
      var granted := Granted(cfg.cooldownTicks, last, wish, |h|);
      && LastTrade(cfg.cooldownTicks, Wishes(cfg, maths, h)) == (if granted then Some((wish.value, |h|)) else last)
      && DecisionAt(cfg, maths, h) == (if granted then Trade(wish.value, ScoreOf(cfg, maths, h)) else Hold)
      && (last.Some? ==> last.value.1 <= |hist|)
  {
    hide TrendOf, MomentumOf, ReversionOf, Blend;
    var h := hist + [price];
    assert h[..|hist|] == hist;
    assert Wishes(cfg, maths, h)[..|hist|] == Wishes(cfg, maths, hist);
    LastTradeIsLast(cfg.cooldownTicks, Wishes(cfg, maths, hist));
  }

  /** The run's decisions are the cooldown machine's trades. */
  lemma {:induction false} DecisionIsTrade(cfg: Config, maths: Maths, hist: seq<real>, k: nat)
    requires cfg.Usable() && 1 <= k <= |hist|
    ensures DecisionAt(cfg, maths, hist[..k]).Trade? <==> Trades(cfg.cooldownTicks, Wishes(cfg, maths, hist), k)
    ensures DecisionAt(cfg, maths, hist[..k]).Trade? ==>
              Wishes(cfg, maths, hist)[k - 1] == Some(DecisionAt(cfg, maths, hist[..k]).side)
  {
    hide WishOf, ScoreOf, LastTrade;
    WishesPrefix(cfg, maths, hist, k);
    PrefixTrades(cfg.cooldownTicks, Wishes(cfg, maths, hist), k, k);
    assert Wishes(cfg, maths, hist)[k - 1] == Wishes(cfg, maths, hist[..k])[k - 1];
    assert hist[..k][..k] == hist[..k];
  }

  /** Cooldown over a price history: two trades on the same side with none between are at
      least the cooldown apart. */
  lemma {:induction false} SameSideTradesSpaced(cfg: Config, maths: Maths, hist: seq<real>, i: nat, j: nat)
    requires cfg.Usable() && 1 <= i < j <= |hist|
    requires DecisionAt(cfg, maths, hist[..i]).Trade? && DecisionAt(cfg, maths, hist[..j]).Trade?
    requires DecisionAt(cfg, maths, hist[..i]).side == DecisionAt(cfg, maths, hist[..j]).side
    requires forall k :: i < k < j ==> DecisionAt(cfg, maths, hist[..k]).Hold?
    ensures j - i >= cfg.cooldownTicks
  {
    var wishes := Wishes(cfg, maths, hist);
    DecisionIsTrade(cfg, maths, hist, i);
    DecisionIsTrade(cfg, maths, hist, j);
    forall k | i < k < j ensures !Trades(cfg.cooldownTicks, wishes, k) {
      DecisionIsTrade(cfg, maths, hist, k);
    }
    CooldownHolds(cfg.cooldownTicks, wishes, i, j);
  }

  // ------------------------------------------------------------ exactly when a price trades

  function WeightedSum(a: real, b: real, c: real, trend: real, momentum: real, reversion: real): real {
    a * trend + b * momentum + c * reversion
  }

  /** A weighted sum over the total weight w reaches the threshold on this side; a buy is looked
      for first. */
  predicate Reaches(sum: real, w: real, threshold: real, side: Side) {
    && (side == Buy ==> sum >= threshold * w)
    && (side == Sell ==> sum < threshold * w && sum <= -(threshold * w))
  }

  /** The score is the weighted sum spread over the total weight. */
  predicate IsMean(score: real, sum: real, w: real) {
    score * w == sum
  }

  /** The three signals weighed, before the weights are divided out. */
  function Weighed(cfg: Config, maths: Maths, hist: seq<real>): real
    requires cfg.Usable()
  {
    WeightedSum(cfg.weightTrend, cfg.weightMomentum, cfg.weightReversion, TrendOf(cfg, maths, hist),
                MomentumOf(cfg.momentumLookback, cfg.momentumBpsFullScale, hist),
                ReversionOf(cfg.reversionWindow, maths.sqrt, hist))
  }

  predicate Calls(cfg: Config, maths: Maths, hist: seq<real>, side: Side)
    requires cfg.Usable()
  {
    var w := cfg.weightTrend + cfg.weightMomentum + cfg.weightReversion;
    w > 0.0 && Reaches(Weighed(cfg, maths, hist), w, cfg.threshold, side)
  }

  /** Price t brought the latest trade before price k. */
  ghost predicate LatestTrade(cfg: Config, maths: Maths, hist: seq<real>, t: nat, k: nat)
    requires cfg.Usable() && k <= |hist|
  {
    && 1 <= t < k && DecisionAt(cfg, maths, hist[..t]).Trade?
    && forall j :: t < j < k ==> DecisionAt(cfg, maths, hist[..j]).Hold?
  }

  /** The latest trade, if there is one, was on the other side or lies the cooldown back. */
  ghost predicate MayTrade(cfg: Config, maths: Maths, hist: seq<real>, k: nat, side: Side)
    requires cfg.Usable() && k <= |hist|
  {
    forall t: nat :: LatestTrade(cfg, maths, hist, t, k) ==>
      DecisionAt(cfg, maths, hist[..t]).side != side || k - t >= cfg.cooldownTicks
  }

  lemma {:induction false} BlendScales(x: real, w: real, threshold: real)
    requires w > 0.0
    ensures x / w * w == x
    ensures x / w >= threshold <==> x >= threshold * w
    ensures x / w <= -threshold <==> x <= -(threshold * w)
  {
    var y := x / w;
    assert y * w == x;
    ScaleKeeps(threshold, y, w);
    ScaleKeeps(y, -threshold, w);
  }

  lemma {:induction false} ScaleKeeps(a: real, b: real, w: real)
    requires w > 0.0
    ensures a <= b <==> a * w <= b * w
  {
    if a <= b {
      assert (b - a) * w >= 0.0;
    } else {
      assert (a - b) * w > 0.0;
    }
  }

  lemma {:induction false} BlendSide(a: real, b: real, c: real, x: real, y: real, z: real, threshold: real, side: Side)
    requires a + b + c > 0.0
    ensures IsMean(Blend(a, b, c, x, y, z), WeightedSum(a, b, c, x, y, z), a + b + c)
    ensures SideFor(threshold, Blend(a, b, c, x, y, z)) == Some(side)
            <==> Reaches(WeightedSum(a, b, c, x, y, z), a + b + c, threshold, side)
  {
    BlendScales(a * x + b * y + c * z, a + b + c, threshold);
  }

  lemma {:induction false} WishIff(cfg: Config, maths: Maths, hist: seq<real>, side: Side)
    requires cfg.Usable()
    ensures WishOf(cfg, maths, hist) == Some(side) <==> Calls(cfg, maths, hist, side)
    ensures cfg.TotalWeight() > 0.0 ==>
              IsMean(ScoreOf(cfg, maths, hist), Weighed(cfg, maths, hist),
                     cfg.weightTrend + cfg.weightMomentum + cfg.weightReversion)
  {
    hide TrendOf, MomentumOf, ReversionOf, Blend, SideFor, WeightedSum, Reaches, IsMean;
    if cfg.TotalWeight() > 0.0 {
      BlendSide(cfg.weightTrend, cfg.weightMomentum, cfg.weightReversion, TrendOf(cfg, maths, hist),
                MomentumOf(cfg.momentumLookback, cfg.momentumBpsFullScale, hist),
                ReversionOf(cfg.reversionWindow, maths.sqrt, hist), cfg.threshold, side);
    }
  }

  lemma {:induction false} TradeScore(cfg: Config, maths: Maths, hist: seq<real>)
    requires cfg.Usable() && hist != [] && DecisionAt(cfg, maths, hist).Trade?
    ensures cfg.TotalWeight() > 0.0 && DecisionAt(cfg, maths, hist).score == ScoreOf(cfg, maths, hist)
  {
    hide ScoreOf, SideFor, Cooled;
    assert Wishes(cfg, maths, hist)[|hist| - 1] == WishOf(cfg, maths, hist);
  }

  /** The strategy's latest trade is the cooldown machine's. */
  lemma {:induction false} LatestIsLatest(cfg: Config, maths: Maths, hist: seq<real>, k: nat)
    requires cfg.Usable() && k <= |hist|
    ensures forall t: nat ::
              Latest(cfg.cooldownTicks, Wishes(cfg, maths, hist), t, k) <==> LatestTrade(cfg, maths, hist, t, k)
    ensures forall t: nat :: LatestTrade(cfg, maths, hist, t, k) ==>
              Wishes(cfg, maths, hist)[t - 1] == Some(DecisionAt(cfg, maths, hist[..t]).side)
  {
    hide DecisionAt, Trades, Wishes;
    forall j | 1 <= j < k
      ensures DecisionAt(cfg, maths, hist[..j]).Trade? <==> Trades(cfg.cooldownTicks, Wishes(cfg, maths, hist), j)
      ensures DecisionAt(cfg, maths, hist[..j]).Trade? ==>
                Wishes(cfg, maths, hist)[j - 1] == Some(DecisionAt(cfg, maths, hist[..j]).side)
    {
      DecisionIsTrade(cfg, maths, hist, j);
    }
  }

  /** Exactly when a price trades, and on which side: the weighed signals reach the threshold on
      that side, and the latest trade leaves it open.  The score it carries is their mean. */
  lemma {:induction false} DecisionIff(cfg: Config, maths: Maths, hist: seq<real>, k: nat, side: Side)
    requires cfg.Usable() && 1 <= k <= |hist|
    ensures var d := DecisionAt(cfg, maths, hist[..k]);
      && ((d.Trade? && d.side == side)
          <==> Calls(cfg, maths, hist[..k], side) && MayTrade(cfg, maths, hist, k, side))
      && (d.Trade? ==>
            IsMean(d.score, Weighed(cfg, maths, hist[..k]),
                   cfg.weightTrend + cfg.weightMomentum + cfg.weightReversion))
  {
    hide WishOf, ScoreOf, Calls, Weighed, IsMean, Trades, DecisionAt, Wishes, Latest, LatestTrade;
    var gap, wishes := cfg.cooldownTicks, Wishes(cfg, maths, hist);
    var d := DecisionAt(cfg, maths, hist[..k]);
    WishIff(cfg, maths, hist[..k], side);
    WishAt(cfg, maths, hist, k);
    DecisionIsTrade(cfg, maths, hist, k);
    if d.Trade? { TradeScore(cfg, maths, hist[..k]); }
    TradesIff(gap, wishes, k);
    LatestIsLatest(cfg, maths, hist, k);
    LatestInside(cfg, maths, hist, k);
    if wishes[k - 1] == Some(side) {
      assert MayTrade(cfg, maths, hist, k, side)
        <==> forall t: nat :: Latest(gap, wishes, t, k) ==> wishes[t - 1] != wishes[k - 1] || k - t >= gap;
    }
  }

  lemma {:induction false} LatestInside(cfg: Config, maths: Maths, hist: seq<real>, k: nat)
    requires cfg.Usable() && k <= |hist|
    ensures forall t: nat :: LatestTrade(cfg, maths, hist, t, k) ==>
              1 <= t < k && DecisionAt(cfg, maths, hist[..t]).Trade?
  {
    hide DecisionAt;
  }

  /** The decision on the last price, spelt out. */
  ghost predicate Decides(cfg: Config, maths: Maths, hist: seq<real>, d: Decision)
    requires cfg.Usable()
  {
    && (forall side :: (d.Trade? && d.side == side)
                       <==> Calls(cfg, maths, hist, side) && MayTrade(cfg, maths, hist, |hist|, side))
    && (d.Trade? ==> IsMean(d.score, Weighed(cfg, maths, hist),
                            cfg.weightTrend + cfg.weightMomentum + cfg.weightReversion))
  }

  lemma {:induction false} DecisionDecides(cfg: Config, maths: Maths, hist: seq<real>)
    requires cfg.Usable() && hist != []
    ensures Decides(cfg, maths, hist, DecisionAt(cfg, maths, hist))
  {
    hide DecisionAt, Calls, MayTrade, IsMean, Weighed;
    assert hist[..|hist|] == hist;
    forall side: Side
      ensures (DecisionAt(cfg, maths, hist).Trade? && DecisionAt(cfg, maths, hist).side == side)
              <==> Calls(cfg, maths, hist, side) && MayTrade(cfg, maths, hist, |hist|, side)
    {
      DecisionIff(cfg, maths, hist, |hist|, side);
    }
    DecisionIff(cfg, maths, hist, |hist|, Buy);
  }

  lemma {:induction false} WishAt(cfg: Config, maths: Maths, hist: seq<real>, k: nat)
    requires cfg.Usable() && 1 <= k <= |hist|
    ensures Wishes(cfg, maths, hist)[k - 1] == WishOf(cfg, maths, hist[..k])
  {
    hide WishOf;
    WishesPrefix(cfg, maths, hist, k);
    assert Wishes(cfg, maths, hist)[k - 1] == Wishes(cfg, maths, hist[..k])[k - 1];
    assert Wishes(cfg, maths, hist[..k])[k - 1] == WishOf(cfg, maths, hist[..k]);
  }

  /** Trades made on the prices after the first `from`. */
  function TradesMade(cfg: Config, maths: Maths, hist: seq<real>, from: nat): nat
    requires cfg.Usable()
  {
    if |hist| <= from then 0
    else TradesMade(cfg, maths, hist[..|hist| - 1], from) + if DecisionAt(cfg, maths, hist).Trade? then 1 else 0
  }

  lemma {:induction false} TradesMadeAreGranted(cfg: Config, maths: Maths, hist: seq<real>, from: nat)
    requires cfg.Usable()
    ensures TradesMade(cfg, maths, hist, from) == TradesSince(cfg.cooldownTicks, Wishes(cfg, maths, hist), from)
  {
    hide WishOf, ScoreOf, DecisionAt, Trades;
    if |hist| > from {
      var n := |hist|;
      TradesMadeAreGranted(cfg, maths, hist[..n - 1], from);
      DecisionIsTrade(cfg, maths, hist, n);
      assert hist[..n] == hist;
      assert Wishes(cfg, maths, hist)[..n - 1] == Wishes(cfg, maths, hist[..n - 1]);
    }
  }

  /** Cooldown over a price history: with a cooldown of at least one and no change of side, n
      prices bring at most the ceiling of n over the cooldown trades. */
  lemma {:induction false} RunsAreThrottled(cfg: Config, maths: Maths, hist: seq<real>, from: nat, side: Side)
    requires cfg.Usable() && cfg.cooldownTicks >= 1 && from <= |hist|
    requires forall k :: from < k <= |hist| && DecisionAt(cfg, maths, hist[..k]).Trade? ==>
               DecisionAt(cfg, maths, hist[..k]).side == side
    ensures TradesMade(cfg, maths, hist, from) <= (|hist| - from + cfg.cooldownTicks - 1) / cfg.cooldownTicks
  {
    hide DecisionAt, Trades, Wishes, TradesMade, TradesSince;
    var gap, wishes := cfg.cooldownTicks, Wishes(cfg, maths, hist);
    forall k | from < k <= |wishes| && Trades(gap, wishes, k) ensures wishes[k - 1] == Some(side) {
      DecisionIsTrade(cfg, maths, hist, k);
    }
    TradesAreThrottled(gap, wishes, from, side);
    TradesMadeAreGranted(cfg, maths, hist, from);
  }

  /** With non-negative weights of positive sum a blend of readings in [-1, 1] stays there. */
  lemma {:induction false} BlendBounded(a: real, b: real, c: real, x: real, y: real, z: real)
    requires a + b + c > 0.0 && a >= 0.0 && b >= 0.0 && c >= 0.0
    requires -1.0 <= x <= 1.0 && -1.0 <= y <= 1.0 && -1.0 <= z <= 1.0
    ensures -1.0 <= Blend(a, b, c, x, y, z) <= 1.0
  {
    Weighted(a, x);
    Weighted(b, y);
    Weighted(c, z);
    MeanBounded(a * x, b * y, c * z, a, b, c);
  }

  lemma {:induction false} MeanBounded(p: real, q: real, r: real, a: real, b: real, c: real)
    requires a + b + c > 0.0 && -a <= p <= a && -b <= q <= b && -c <= r <= c
    ensures -1.0 <= (p + q + r) / (a + b + c) <= 1.0
  {
    Quotient(p + q + r, a + b + c);
  }

  lemma {:induction false} Weighted(w: real, x: real)
    requires w >= 0.0 && -1.0 <= x <= 1.0
    ensures -w <= w * x <= w
  {
    ProductNonNegative(w, 1.0 - x);
    ProductNonNegative(w, 1.0 + x);
  }

  lemma {:induction false} Quotient(n: real, w: real)
    requires w > 0.0 && -w <= n <= w
    ensures -1.0 <= n / w <= 1.0
  {
    assert n / w * w == n;
  }

  lemma {:induction false} ScoreBounded(cfg: Config, maths: Maths, hist: seq<real>)
    requires cfg.Usable() && cfg.TotalWeight() > 0.0
    requires cfg.weightTrend >= 0.0 && cfg.weightMomentum >= 0.0 && cfg.weightReversion >= 0.0
    ensures -1.0 <= ScoreOf(cfg, maths, hist) <= 1.0
  {
    hide TrendOf, MomentumOf, ReversionOf, Blend;
    BlendBounded(cfg.weightTrend, cfg.weightMomentum, cfg.weightReversion, TrendOf(cfg, maths, hist),
                 MomentumOf(cfg.momentumLookback, cfg.momentumBpsFullScale, hist),
                 ReversionOf(cfg.reversionWindow, maths.sqrt, hist));
  }

  lemma {:induction false} TrendOfConstant(cfg: Config, maths: Maths, hist: seq<real>, p: real)
    requires hist != [] && Constant(hist, p)
    ensures TrendOf(cfg, maths, hist) == 0.0
  {
    EmaOfConstant(cfg.slowEmaPeriod, hist, p);
    EmaOfConstant(cfg.fastEmaPeriod, hist, p);
    FlatTrend(maths.tanh, p);
  }

  lemma {:induction false} FlatTrend(tanh: TanhFn, p: real)
    ensures TrendReading(tanh, p, p) == 0.0
  {
    if p != 0.0 { assert (p - p) / p * 200.0 == 0.0; }
  }

  /** A flat price never trades. */
  lemma {:induction false} ConstantPriceHolds(cfg: Config, maths: Maths, hist: seq<real>, p: real, k: nat)
    requires cfg.Usable() && cfg.threshold > 0.0
    requires Constant(hist, p) && 1 <= k <= |hist|
    ensures DecisionAt(cfg, maths, hist[..k]).Hold?
  {
    hide EmaOf, MomentumOf, ReversionOf, TrendOf, Blend, LastTrade;
    var h := hist[..k];
    TrendOfConstant(cfg, maths, h, p);
    MomentumOfConstant(cfg.momentumLookback, cfg.momentumBpsFullScale, h, p);
    ReversionOfConstant(cfg.reversionWindow, maths.sqrt, h, p);
    if cfg.TotalWeight() > 0.0 { SilentBlend(cfg.weightTrend, cfg.weightMomentum, cfg.weightReversion); }
    assert WishOf(cfg, maths, h) == None;
  }

  lemma {:induction false} SilentBlend(a: real, b: real, c: real)
    requires a + b + c > 0.0
    ensures Blend(a, b, c, 0.0, 0.0, 0.0) == 0.0
  {
  }

  // ------------------------------------------------------------ the streaming implementation

  class Ema {
    const alpha: real
    var value: real
    var initialized: bool

    constructor (period: nat)
      ensures Holds(period, [])
    {
      alpha := 2.0 / (period as real + 1.0);
      value, initialized := 0.0, false;
    }

    /** The average of a history, so far. */
    ghost predicate Holds(period: nat, hist: seq<real>)
      reads this
    {
      && alpha == Alpha(period)
      && (initialized <==> hist != [])
      && value == EmaOf(period, hist)
    }

    method Update(x: real, ghost period: nat, ghost hist: seq<real>) returns (r: real)
      requires Holds(period, hist)
      modifies this
      ensures Holds(period, hist + [x]) && r == EmaOf(period, hist + [x])
    {
      assert (hist + [x])[..|hist|] == hist;
      if initialized {
        value := value + alpha * (x - value);
      } else {
        value := x;
        initialized := true;
      }
      r := value;
    }
  }

  /** The signals read off the recent prices are those of the history. */
  lemma {:induction false} MomentumOfBuffer(lookback: nat, fullScale: real, hist: seq<real>)
    requires fullScale != 0.0
    ensures var buf := Recent(hist, lookback + 1);
      MomentumOf(lookback, fullScale, hist)
      == if |buf| <= lookback then 0.0 else MomentumReading(buf[0], Last(buf), fullScale)
  {
    hide MomentumReading, Recent;
    RecentEnds(hist, lookback + 1);
  }

  lemma {:induction false} ReversionOfWindow(window: nat, sqrt: SqrtFn, hist: seq<real>)
    requires window >= 1
    ensures var w := Recent(hist, window);
      ReversionOf(window, sqrt, hist)
      == if |w| < window then 0.0 else ReversionReading(Last(w), |w|, Sum(w), SumSq(w), sqrt)
  {
    hide ReversionReading, Recent, Sum, SumSq;
    RecentEnds(hist, window);
  }

  class Composite {
    const cfg: Config
    const maths: Maths
    const fast: Ema
    const slow: Ema
    var momentumBuf: seq<real>
    var window: seq<real>
    var windowSum: real
    var windowSumSq: real
    var ticksSeen: nat
    var lastTradeTick: Option<nat>
    var lastSide: Option<Side>
    ghost var hist: seq<real>

    constructor (cfg: Config, maths: Maths)
      requires cfg.Usable()
      ensures Valid() && hist == [] && this.cfg == cfg && this.maths == maths
      ensures fresh(fast) && fresh(slow)
    {
      hide Alpha;
      NothingYet(cfg, maths);
      this.cfg, this.maths := cfg, maths;
      var f := new Ema(cfg.fastEmaPeriod);
      var s := new Ema(cfg.slowEmaPeriod);
      fast, slow := f, s;
      momentumBuf, window, windowSum, windowSumSq := [], [], 0.0, 0.0;
      ticksSeen, lastTradeTick, lastSide := 0, None, None;
      hist := [];
      new;
      assert Rolling();
    }

    ghost predicate Rolling()
      reads this, fast, slow
    {
      && fast != slow && cfg.Usable()
      && fast.Holds(cfg.fastEmaPeriod, hist) && slow.Holds(cfg.slowEmaPeriod, hist)
      && momentumBuf == Recent(hist, cfg.momentumLookback + 1)
      && window == Recent(hist, cfg.reversionWindow)
      && windowSum == Sum(window) && windowSumSq == SumSq(window)
      && ticksSeen == |hist|
    }

    lemma {:induction false} WindowIsRecent()
      ensures Rolling() ==>
                && momentumBuf == Recent(hist, cfg.momentumLookback + 1)
                && window == Recent(hist, cfg.reversionWindow)
                && windowSum == Sum(window) && windowSumSq == SumSq(window)
    {
      hide Sum, SumSq, Recent, EmaOf;
    }

    /** Every rolling field is the one the history of prices determines. */
    ghost predicate Valid()
      reads this, fast, slow
    {
      Rolling() && Remembers(LastTrade(cfg.cooldownTicks, Wishes(cfg, maths, hist)))
    }

    ghost predicate Remembers(last: Memory)
      reads this
    {
      && lastSide == (if last.Some? then Some(last.value.0) else None)
      && lastTradeTick == (if last.Some? then Some(last.value.1) else None)
    }

    /** Appends a price and trims the front. */
    method PushMomentum(price: real)
      modifies this`momentumBuf
      ensures momentumBuf == Recent(old(momentumBuf) + [price], cfg.momentumLookback + 1)
    {
      momentumBuf := momentumBuf + [price];
      ghost var full := momentumBuf;
      while |momentumBuf| > cfg.momentumLookback + 1
        invariant |momentumBuf| <= |full| && momentumBuf == full[|full| - |momentumBuf|..]
        invariant |momentumBuf| == |full| || |momentumBuf| > cfg.momentumLookback
      {
        momentumBuf := momentumBuf[1..];
      }
    }

    /** Appends a price and trims the front, keeping the running sums true. */
    method PushWindow(price: real)
      requires windowSum == Sum(window) && windowSumSq == SumSq(window)
      modifies this`window, this`windowSum, this`windowSumSq
      ensures window == Recent(old(window) + [price], cfg.reversionWindow)
      ensures windowSum == Sum(window) && windowSumSq == SumSq(window)
    {
      hide Square, Sum, SumSq;
      SumsAppend(window, price);
      window := window + [price];
      windowSum := windowSum + price;
      windowSumSq := windowSumSq + Square(price);
      ghost var full := window;
      while |window| > cfg.reversionWindow
        invariant |window| <= |full| && window == full[|full| - |window|..]
        invariant |window| == |full| || |window| >= cfg.reversionWindow
        invariant windowSum == Sum(window) && windowSumSq == SumSq(window)
      {
        SumsDropFirst(window);
        var oldest := window[0];
        window := window[1..];
        windowSum := windowSum - oldest;
        windowSumSq := windowSumSq - Square(oldest);
      }
    }

    method TrendSignal() returns (r: real)
      ensures Rolling() ==> r == TrendOf(cfg, maths, hist)
      ensures r == if slow.initialized then TrendReading(maths.tanh, fast.value, slow.value) else 0.0
    {
      hide EmaOf, Alpha, Recent, Sum, SumSq;
      if !slow.initialized || slow.value == 0.0 {
        return 0.0;
      }
      var relGap := (fast.value - slow.value) / slow.value;
      r := maths.tanh(relGap * 200.0);
    }

    static method Return(past: real, now: real, fullScale: real) returns (r: real)
      requires fullScale != 0.0
      ensures r == MomentumReading(past, now, fullScale)
    {
      if past == 0.0 {
        return 0.0;
      }
      var bps := (now - past) / past * 10_000.0;
      r := Clamp(bps / fullScale);
    }

    method MomentumSignal() returns (r: real)
      requires cfg.Usable()
      ensures Rolling() ==> r == MomentumOf(cfg.momentumLookback, cfg.momentumBpsFullScale, hist)
      ensures r == if |momentumBuf| <= cfg.momentumLookback then 0.0
                   else MomentumReading(momentumBuf[0], Last(momentumBuf), cfg.momentumBpsFullScale)
    {
      hide Rolling, MomentumOf, MomentumReading, EmaOf, Sum, SumSq, Recent;
      WindowIsRecent();
      MomentumOfBuffer(cfg.momentumLookback, cfg.momentumBpsFullScale, hist);
      if |momentumBuf| <= cfg.momentumLookback {
        return 0.0;
      }
      r := Return(momentumBuf[0], momentumBuf[|momentumBuf| - 1], cfg.momentumBpsFullScale);
    }

    static method FadedZScore(now: real, n: nat, sum: real, sumSq: real, sqrt: SqrtFn) returns (r: real)
      requires n > 0
      ensures r == ReversionReading(now, n, sum, sumSq, sqrt)
    {
      var mean := sum / n as real;
      var variance := sumSq / n as real - mean * mean;
      if variance <= 0.000000000001 {
        return 0.0;
      }
      var std := sqrt(variance);
      var z := (now - mean) / std;
      r := Clamp(-z / 2.0);
    }

    /** While the rolling fields are true, the reading of the last price in its window. */
    method ReversionSignal() returns (r: real)
      requires cfg.Usable()
      ensures Rolling() ==> r == ReversionOf(cfg.reversionWindow, maths.sqrt, hist)
      ensures r == if |window| < cfg.reversionWindow then 0.0
                   else ReversionReading(Last(window), |window|, windowSum, windowSumSq, maths.sqrt)
    {
      hide Rolling, ReversionOf, ReversionReading, EmaOf, Sum, SumSq, Recent;
      WindowIsRecent();
      ReversionOfWindow(cfg.reversionWindow, maths.sqrt, hist);
      if |window| < cfg.reversionWindow {
        return 0.0;
      }
      r := FadedZScore(window[|window| - 1], |window|, windowSum, windowSumSq, maths.sqrt);
    }

    /** The three signals, each the plain function of the price history. */
    method Signals() returns (trend: real, momentum: real, reversion: real)
      requires Rolling()
      ensures trend == TrendOf(cfg, maths, hist)
      ensures momentum == MomentumOf(cfg.momentumLookback, cfg.momentumBpsFullScale, hist)
      ensures reversion == ReversionOf(cfg.reversionWindow, maths.sqrt, hist)
    {
      hide TrendOf, MomentumOf, ReversionOf, TrendReading, MomentumReading, ReversionReading, EmaOf, Sum, SumSq, Recent;
      trend := TrendSignal();
      momentum := MomentumSignal();
      reversion := ReversionSignal();
    }

    static method Score(a: real, b: real, c: real, trend: real, momentum: real, reversion: real) returns (score: real)
      requires a + b + c > 0.0
      ensures score == Blend(a, b, c, trend, momentum, reversion)
    {
      var w := a + b + c;
      score := (a * trend + b * momentum + c * reversion) / w;
    }

    method CooldownOk(side: Side, ghost last: Memory) returns (ok: bool)
      requires Remembers(last) && (last.Some? ==> last.value.1 <= ticksSeen)
      ensures last == None ==> ok
      ensures last.Some? ==> (ok <==> last.value.0 != side || ticksSeen - last.value.1 >= cfg.cooldownTicks)
    {
      match (lastSide, lastTradeTick)
      case (Some(prev), Some(t)) =>
        ok := prev == side ==> (if ticksSeen >= t then ticksSeen - t else 0) >= cfg.cooldownTicks;
      case _ =>
        ok := true;
    }

    /** Feeds one price to the rolling fields. */
    method Roll(price: real)
      requires Rolling()
      modifies this`momentumBuf, this`window, this`windowSum, this`windowSumSq, this`ticksSeen, this`hist, fast, slow
      ensures Rolling() && hist == old(hist) + [price]
    {
      hide EmaOf, Sum, SumSq, Alpha, Recent;
      ticksSeen := ticksSeen + 1;
      var f := fast.Update(price, cfg.fastEmaPeriod, hist);
      var s := slow.Update(price, cfg.slowEmaPeriod, hist);
      RecentPush(hist, price, cfg.momentumLookback + 1);
      RecentPush(hist, price, cfg.reversionWindow);
      PushMomentum(price);
      PushWindow(price);
      hist := hist + [price];
    }

    /** The side the blended score asks for, with the score; none when the weights vanish. */
    method Want() returns (side: Option<Side>, score: real)
      requires Rolling()
      ensures side == WishOf(cfg, maths, hist)
      ensures side.Some? ==> score == ScoreOf(cfg, maths, hist)
    {
      hide EmaOf, Sum, SumSq, Alpha, TrendOf, MomentumOf, ReversionOf, Blend, Recent;
      var trend, momentum, reversion := Signals();
      var w := cfg.weightTrend + cfg.weightMomentum + cfg.weightReversion;
      if w <= 0.0 {
        return None, 0.0;
      }
      score := Score(cfg.weightTrend, cfg.weightMomentum, cfg.weightReversion, trend, momentum, reversion);
      side := if score >= cfg.threshold then Some(Buy)
              else if score <= -cfg.threshold then Some(Sell)
              else None;
    }

    /** Feeds one price: the decision is a function of the whole price history. */
    method OnPrice(price: real) returns (d: Decision)
      requires Valid()
      modifies this, fast, slow
      ensures Valid() && hist == old(hist) + [price]
      ensures d == DecisionAt(cfg, maths, hist) && Decides(cfg, maths, hist, d)
    {
      hide EmaOf, Sum, SumSq, Alpha, Recent, WishOf, ScoreOf, Wishes, DecisionAt, LastTrade, Decides;
      ghost var last := LastTrade(cfg.cooldownTicks, Wishes(cfg, maths, hist));
      DecisionStep(cfg, maths, hist, price);
      DecisionDecides(cfg, maths, hist + [price]);
      Roll(price);
      var side, score := Want();
      if side.Some? {
        var ok := CooldownOk(side.value, last);
        if ok {
          lastTradeTick := Some(ticksSeen);
          lastSide := Some(side.value);
          return Trade(side.value, score);
        }
      }
      return Hold;
    }
  }
}
