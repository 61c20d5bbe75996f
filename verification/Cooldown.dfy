/** The cooldown as a machine over any stream of wanted sides: at most one trade a tick, and
    two trades on the same side with none between are a cooldown apart. */
module Cooldown {
  import opened Options

  datatype Side = Buy | Sell

  /** The last trade: its side and its tick, ticks counted from one. */
  type Memory = Option<(Side, nat)>

  predicate Cooled(gap: nat, last: Memory, side: Side, tick: nat) {
    last.Some? && last.value.0 == side ==> tick - last.value.1 >= gap
  }

  /** Whether the wish at this tick is granted. */
  predicate Granted(gap: nat, last: Memory, wish: Option<Side>, tick: nat) {
    wish.Some? && Cooled(gap, last, wish.value, tick)
  }

  /** The memory after a stream of wishes. */
  function LastTrade(gap: nat, wishes: seq<Option<Side>>): Memory {
    if wishes == [] then None
    else
      var n := |wishes|;
      var before := LastTrade(gap, wishes[..n - 1]);
      if Granted(gap, before, wishes[n - 1], n) then Some((wishes[n - 1].value, n)) else before
  }

  /** Whether the k-th tick trades. */
  predicate Trades(gap: nat, wishes: seq<Option<Side>>, k: nat)
    requires 1 <= k <= |wishes|
  {
    Granted(gap, LastTrade(gap, wishes[..k - 1]), wishes[k - 1], k)
  }

  /** What a longer stream did on earlier ticks, the shorter one did. */
  lemma {:induction false} PrefixTrades(gap: nat, wishes: seq<Option<Side>>, n: nat, k: nat)
    requires 1 <= k <= n <= |wishes|
    ensures Trades(gap, wishes, k) <==> Trades(gap, wishes[..n], k)
  {
    assert wishes[..n][..k - 1] == wishes[..k - 1];
  }

  /** The remembered trade is the last one made: nothing traded after it. */
  lemma {:induction false} LastTradeIsLast(gap: nat, wishes: seq<Option<Side>>)
    ensures var last := LastTrade(gap, wishes);
      && (last.Some? ==>
            && 1 <= last.value.1 <= |wishes|
            && Trades(gap, wishes, last.value.1) && wishes[last.value.1 - 1] == Some(last.value.0))
      && (forall k :: 1 <= k <= |wishes| && Trades(gap, wishes, k) ==> last.Some? && k <= last.value.1)
  {
    if wishes != [] {
      var n := |wishes|;
      var before := wishes[..n - 1];
      LastTradeIsLast(gap, before);
      forall k | 1 <= k < n ensures Trades(gap, wishes, k) <==> Trades(gap, before, k) {
        PrefixTrades(gap, wishes, n - 1, k);
      }
    }
  }

  /** Two trades on the same side with none between are at least the gap apart. */
  lemma {:induction false} CooldownHolds(gap: nat, wishes: seq<Option<Side>>, i: nat, j: nat)
    requires 1 <= i < j <= |wishes| && Trades(gap, wishes, i) && Trades(gap, wishes, j)
    requires wishes[i - 1] == wishes[j - 1]
    requires forall k :: i < k < j ==> !Trades(gap, wishes, k)
    ensures j - i >= gap
  {
    var before := wishes[..j - 1];
    LastTradeIsLast(gap, before);
    PrefixTrades(gap, wishes, j - 1, i);
    var t := LastTrade(gap, before).value.1;
    PrefixTrades(gap, wishes, j - 1, t);
    assert t == i;
  }

  /** Tick t is the latest trade before tick k. */
  ghost predicate Latest(gap: nat, wishes: seq<Option<Side>>, t: nat, k: nat)
    requires k <= |wishes|
  {
    1 <= t < k && Trades(gap, wishes, t) && forall j :: t < j < k ==> !Trades(gap, wishes, j)
  }

  /** Exactly when a tick trades: it wishes for a side, and the latest trade before it, if there
      is one, was on the other side or lies the gap back. */
  lemma {:induction false} TradesIff(gap: nat, wishes: seq<Option<Side>>, k: nat)
    requires 1 <= k <= |wishes|
    ensures Trades(gap, wishes, k)
            <==> (&& wishes[k - 1].Some?
                  && forall t: nat :: Latest(gap, wishes, t, k) ==> wishes[t - 1] != wishes[k - 1] || k - t >= gap)
  {
    var before := wishes[..k - 1];
    var last := LastTrade(gap, before);
    LastTradeIsLast(gap, before);
    forall j | 1 <= j < k ensures Trades(gap, wishes, j) <==> Trades(gap, before, j) {
      PrefixTrades(gap, wishes, k - 1, j);
    }
    if last.Some? { assert Latest(gap, wishes, last.value.1, k); }
  }

  /** Trades on the ticks after the first `from`. */
  function TradesSince(gap: nat, wishes: seq<Option<Side>>, from: nat): nat {
    if |wishes| <= from then 0
    else TradesSince(gap, wishes[..|wishes| - 1], from) + if Trades(gap, wishes, |wishes|) then 1 else 0
  }

  predicate OneSided(gap: nat, wishes: seq<Option<Side>>, from: nat, side: Side) {
    forall k :: from < k <= |wishes| && Trades(gap, wishes, k) ==> wishes[k - 1] == Some(side)
  }

  lemma {:induction false} TradesSpread(gap: nat, wishes: seq<Option<Side>>, from: nat, side: Side)
    requires from <= |wishes| && OneSided(gap, wishes, from, side)
    ensures var n, last := TradesSince(gap, wishes, from), LastTrade(gap, wishes);
      n > 0 ==> last.Some? && last.value.0 == side && from + 1 + (n - 1) * gap <= last.value.1 <= |wishes|
  {
    if |wishes| > from {
      var before := wishes[..|wishes| - 1];
      forall k | from < k < |wishes| ensures Trades(gap, before, k) <==> Trades(gap, wishes, k) {
        PrefixTrades(gap, wishes, |wishes| - 1, k);
      }
      TradesSpread(gap, before, from, side);
      var n := TradesSince(gap, before, from);
      assert n * gap == (n - 1) * gap + gap;
    }
  }

  /** With a gap of at least one and no change of side, n ticks hold at most ceil(n/gap) trades. */
  lemma {:induction false} TradesAreThrottled(gap: nat, wishes: seq<Option<Side>>, from: nat, side: Side)
    requires gap >= 1 && from <= |wishes| && OneSided(gap, wishes, from, side)
    ensures TradesSince(gap, wishes, from) <= (|wishes| - from + gap - 1) / gap
  {
    TradesSpread(gap, wishes, from, side);
    CeilingBound(TradesSince(gap, wishes, from), |wishes| - from, gap);
  }

  lemma {:induction false} CeilingBound(n: nat, ticks: nat, c: nat)
    requires c >= 1 && (n > 0 ==> 1 + (n - 1) * c <= ticks)
    ensures n <= (ticks + c - 1) / c
  {
    if n > 0 {
      var q := (ticks + c - 1) / c;
      assert n * c <= ticks + c - 1;
      assert ticks + c - 1 < (q + 1) * c;
      SmallerFactor(n, q + 1, c);
    }
  }

  lemma {:induction false} SmallerFactor(a: nat, b: nat, c: nat)
    ensures a * c < b * c ==> a < b
  {
    if a >= b {
      assert a * c == b * c + (a - b) * c;
      assert (a - b) * c >= 0;
    }
  }
}
