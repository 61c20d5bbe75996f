/** The limit order book: price levels with cached sizes and an id index, mutated in place.

    Every method is proved against the flat matching rule of FlatBook. */
module OrderBook {
  import opened FlatBook
  import opened Options
  import opened PriceLevels

  /** Matching `left` against `cur` after the fills `done` is the rest of matching `left0` against `opp0`. */
  ghost predicate Continues(o: Order, opp0: seq<Entry>, left0: nat, done: seq<Fill>, cur: seq<Entry>, left: nat) {
    var m0, m := Take(o, opp0, left0), Take(o, cur, left);
    m0.fills == done + m.fills && m0.left == m.left && m0.rest == m.rest
  }

  /** One turn of the inner loop: the front entry is filled for q. */
  lemma {:induction false} ContinuesStep(o: Order, opp0: seq<Entry>, left0: nat, done: seq<Fill>, cur: seq<Entry>,
                                         left: nat)
    requires Continues(o, opp0, left0, done, cur, left)
    requires left > 0 && cur != [] && Acceptable(o, cur[0].px)
    ensures var e := cur[0];
      var q := Min(left, e.order.remaining);
      Continues(o, opp0, left0, done + [MakeFill(o, e, q, left - q)],
                if q == e.order.remaining then cur[1..] else [e.Reduced(q)] + cur[1..], left - q)
  {
    var e := cur[0];
    var q := Min(left, e.order.remaining);
    var f := MakeFill(o, e, q, left - q);
    var next := if q == e.order.remaining then cur[1..] else [e.Reduced(q)] + cur[1..];
    assert (done + [f]) + Take(o, next, left - q).fills == done + ([f] + Take(o, next, left - q).fills);
  }

  /** The state of a sweep of one side from (cur0, left0): the fills so far, the makers used
      up, and what is left of the side, whose index is the old one without those makers. */
  ghost predicate Sweep(side: Side, o: Order, cur0: seq<Entry>, left0: nat,
                        done: seq<Fill>, cleared: seq<nat>, cur: seq<Entry>, left: nat)
  {
    && Continues(o, cur0, left0, done, cur, left)
    && SideValid(side, cur) && IdsOf(cur) <= IdsOf(cur0)
    && (forall id :: id in cleared ==> id in IdsOf(cur0))
    && Located(side, cur) == Located(side, cur0) - (set id | id in cleared)
  }

  lemma {:induction false} SweepStep(side: Side, o: Order, cur0: seq<Entry>, left0: nat,
                  done: seq<Fill>, cleared: seq<nat>, cur: seq<Entry>, left: nat)
    requires Sweep(side, o, cur0, left0, done, cleared, cur, left)
    requires left > 0 && cur != [] && Acceptable(o, cur[0].px)
    ensures var e := cur[0];
      var q := Min(left, e.order.remaining);
      var done' := done + [MakeFill(o, e, q, left - q)];
      && 0 < q
      && if q == e.order.remaining
         then Sweep(side, o, cur0, left0, done', cleared + [e.order.orderId], cur[1..], left - q)
         else Sweep(side, o, cur0, left0, done', cleared, [e.Reduced(q)] + cur[1..], left - q)
  {
    var e := cur[0];
    var q := Min(left, e.order.remaining);
    ContinuesStep(o, cur0, left0, done, cur, left);
    LocatedKeys(side, cur[1..]);
    if q == e.order.remaining {
      var id := e.order.orderId;
      assert Located(side, cur[1..]) == Located(side, cur) - {id};
      assert (set x | x in cleared + [id]) == (set x | x in cleared) + {id};
    } else {
      var reduced := [e.Reduced(q)] + cur[1..];
      assert reduced[1..] == cur[1..];
    }
  }

  lemma {:induction false} TagFront(px: int, queue: seq<RestingOrder>, tail: seq<Entry>)
    requires queue != []
    ensures var cur := Tag(px, queue) + tail;
      cur != [] && cur[0] == Entry(px, queue[0]) && cur[1..] == Tag(px, queue[1..]) + tail
  {
  }

  lemma {:induction false} TagCons(px: int, front: RestingOrder, queue: seq<RestingOrder>, tail: seq<Entry>)
    ensures Tag(px, [front] + queue) + tail == [Entry(px, front)] + (Tag(px, queue) + tail)
  {
    assert ([front] + queue)[1..] == queue;
  }

  /** The same step on a level's own queue, in front of the rest of the side. */
  lemma {:induction false} SweepQueue(side: Side, o: Order, cur0: seq<Entry>, left0: nat,
                                      done: seq<Fill>, cleared: seq<nat>,
                                      px: int, queue: seq<RestingOrder>, tail: seq<Entry>, left: nat)
    requires Sweep(side, o, cur0, left0, done, cleared, Tag(px, queue) + tail, left)
    requires left > 0 && queue != [] && Acceptable(o, px)
    ensures var front := queue[0];
      var q := Min(left, front.remaining);
      var f := Fill(o.id, front.orderId, px, q, o.originTs, left - q, o.isSynthetic, front.isSynthetic);
      && 0 < q
      && (q == front.remaining ==>
            Sweep(side, o, cur0, left0, done + [f], cleared + [front.orderId], Tag(px, queue[1..]) + tail, left - q))
      && (q < front.remaining ==>
            Sweep(side, o, cur0, left0, done + [f], cleared,
                  Tag(px, [front.(remaining := front.remaining - q)] + queue[1..]) + tail, left - q))
  {
    hide Sweep, Tag, Acceptable;
    var q := Min(left, queue[0].remaining);
    TagFront(px, queue, tail);
    SweepStep(side, o, cur0, left0, done, cleared, Tag(px, queue) + tail, left);
    if q < queue[0].remaining {
      TagCons(px, queue[0].(remaining := queue[0].remaining - q), queue[1..], tail);
    }
  }

  lemma {:induction false} ContinuesChain(o: Order, opp0: seq<Entry>, left0: nat, done: seq<Fill>,
                                         mid: seq<Entry>, left: nat, more: seq<Fill>, cur: seq<Entry>, left': nat)
    requires Continues(o, opp0, left0, done, mid, left)
    requires Continues(o, mid, left, more, cur, left')
    ensures Continues(o, opp0, left0, done + more, cur, left')
  {
    assert (done + more) + Take(o, cur, left').fills == done + (more + Take(o, cur, left').fills);
  }

  /** Pushing on the back of a level keeps the side's caches exact and inserts by priority. */
  lemma {:induction false} RestLevel(side: Side, m: Levels, px: int, order: RestingOrder, l: PriceLevel)
    requires LevelsValid(m) && l == if px in m then m[px] else NEW_LEVEL
    ensures var m' := m[px := PriceLevel(l.totalSize + order.remaining, l.queue + [order])];
      && LevelsValid(m')
      && Flatten(side, m') == Insert(side, Flatten(side, m), Entry(px, order))
      && l.totalSize == FlatBook.SizeAt(Flatten(side, m), px)
  {
    FlattenSizeAt(side, m, px);
    FlattenInsert(side, m, px, order, l.totalSize + order.remaining);
    SumAppend(l.queue, [order]);
  }

  lemma {:induction false} PutTwice(m: Levels, px: int, l: PriceLevel, l': PriceLevel)
    ensures m[px := l][px := l'] == m[px := l']
  {
  }

  /** What the index says of a resting id: its true side and level, and it is nowhere else. */
  lemma {:induction false} CancelTarget(b: Ladder, bids: Levels, asks: Levels, id: nat)
    requires FlatBook.Valid(b) && b == Ladder(Flatten(Buy, bids), Flatten(Sell, asks)) && id in b.Ids()
    ensures id in Index(b)
    ensures var (side, px) := Index(b)[id];
      && px in (if side.Buy? then bids else asks)
      && Queued((if side.Buy? then bids else asks)[px].queue, id)
      && b.With(side, Remove(b.On(side), id)) == FlatBook.Cancel(b, id).book
  {
    LocatedKeys(Buy, b.bids);
    LocatedKeys(Sell, b.asks);
    RemoveValid(Buy, b.bids, id);
    RemoveValid(Sell, b.asks, id);
    if id in IdsOf(b.bids) {
      LocatedLevel(Buy, bids, id);
    } else {
      LocatedLevel(Sell, asks, id);
    }
  }

  lemma {:induction false} RestValid(b: Ladder, o: Order, left: nat)
    requires FlatBook.Valid(b) && o.id !in b.Ids() && left > 0 && o.isLimit
    requires b.On(o.side.Opposite()) != [] ==> !Acceptable(o, b.On(o.side.Opposite())[0].px)
    ensures var e := Entry(o.limitPx, RestingOrder(o.id, left, o.isSynthetic));
      var b' := b.With(o.side, Insert(o.side, b.On(o.side), e));
      FlatBook.Valid(b') && Index(b') == Index(b)[o.id := (o.side, o.limitPx)]
  {
    var e := Entry(o.limitPx, RestingOrder(o.id, left, o.isSynthetic));
    InsertValid(o.side, b.On(o.side), e);
    IndexInsert(b, o.side, e);
  }

  lemma {:induction false} BehindLevel(side: Side, px: int, q: seq<RestingOrder>, t: seq<Entry>)
    requires q != [] && SideValid(side, Tag(px, q) + t)
    ensures t != [] ==> !Better(side, t[0].px, px)
  {
    var s := Tag(px, q) + t;
    PriorityOrder(side, s);
    if t != [] { assert s[0].px == px && s[|s| - |t|] == t[0]; }
  }

  /** A side that only lost orders, and whose best price is no better, keeps the book valid. */
  lemma {:induction false} ThinnerValid(b: Ladder, side: Side, s: seq<Entry>)
    requires FlatBook.Valid(b) && SideValid(side, s) && IdsOf(s) <= IdsOf(b.On(side))
    requires s != [] ==> b.On(side) != [] && !Better(side, s[0].px, b.On(side)[0].px)
    ensures FlatBook.Valid(b.With(side, s))
  {
  }

  /** Dropping ids of one side from the index leaves the other side's part alone. */
  lemma {:induction false} IndexWithout(b: Ladder, side: Side, s: seq<Entry>, gone: set<nat>)
    requires IdsOf(b.bids) !! IdsOf(b.asks)
    requires gone <= IdsOf(b.On(side))
    requires Located(side, s) == Located(side, b.On(side)) - gone
    ensures Index(b.With(side, s)) == Index(b) - gone
  {
    LocatedKeys(Buy, b.bids);
    LocatedKeys(Sell, b.asks);
  }

  lemma {:induction false} IndexInsert(b: Ladder, side: Side, e: Entry)
    requires e.order.orderId !in b.Ids()
    ensures Index(b.With(side, Insert(side, b.On(side), e))) == Index(b)[e.order.orderId := (side, e.px)]
  {
    LocatedInsert(side, b.On(side), e);
    LocatedKeys(Buy, b.bids);
    LocatedKeys(Sell, b.asks);
  }

  lemma {:induction false} IndexRemove(b: Ladder, id: nat)
    ensures Index(Ladder(Remove(b.bids, id), Remove(b.asks, id))) == Index(b) - {id}
  {
    LocatedRemove(Buy, b.bids, id);
    LocatedRemove(Sell, b.asks, id);
  }

  lemma {:induction false} TakeNothing(o: Order, opp: seq<Entry>, left: nat)
    requires left == 0 || opp == [] || !Acceptable(o, opp[0].px)
    ensures Take(o, opp, left) == Match([], left, opp)
  {
  }

  class Book {
    var bids: Levels
    var asks: Levels
    var locate: map<nat, (Side, int)>

    function On(side: Side): Levels
      reads this
    {
      if side.Buy? then bids else asks
    }

    /** The book as two sequences in price-time priority. */
    ghost function Abs(): Ladder
      reads this
    {
      Ladder(Flatten(Buy, bids), Flatten(Sell, asks))
    }

    /** No empty level, exact cached sizes, a valid flat book, and an index that is
        exactly the side and price of every resting order. */
    ghost predicate Valid()
      reads this
    {
      && LevelsValid(bids) && LevelsValid(asks)
      && FlatBook.Valid(Abs())
      && locate == Index(Abs())
    }

    constructor ()
      ensures Valid() && Abs() == EMPTY
    {
      bids, asks, locate := map[], map[], map[];
    }

    function BestOf(side: Side): (r: Option<int>)
      requires Valid()
      reads this
      ensures r.None? <==> Abs().On(side) == []
      ensures r.Some? ==> Abs().On(side)[0].px == r.value
    {
      FlattenFront(side, On(side));
      Best(side, On(side))
    }

    function BestBid(): (r: Option<int>)
      requires Valid()
      reads this
      ensures r.Some? ==> forall i :: 0 <= i < |Abs().bids| ==> Abs().bids[i].px <= r.value
      ensures r.Some? && BestOf(Sell).Some? ==> r.value < BestOf(Sell).value
    {
      PriorityOrder(Buy, Abs().bids);
      BestOf(Buy)
    }

    function BestAsk(): (r: Option<int>)
      requires Valid()
      reads this
      ensures r.Some? ==> forall i :: 0 <= i < |Abs().asks| ==> Abs().asks[i].px >= r.value
      ensures r.Some? && BestOf(Buy).Some? ==> BestOf(Buy).value < r.value
    {
      PriorityOrder(Sell, Abs().asks);
      BestOf(Sell)
    }

    /** The cached size is the true size resting at the price. */
    function SizeAt(side: Side, px: int): (n: nat)
      requires Valid()
      reads this
      ensures n == FlatBook.SizeAt(Abs().On(side), px)
    {
      FlattenSizeAt(side, On(side), px);
      if px in On(side) then On(side)[px].totalSize else 0
    }

    function IsResting(id: nat): (r: bool)
      requires Valid()
      reads this
      ensures r <==> id in Abs().Ids()
    {
      LocatedKeys(Buy, Abs().bids);
      LocatedKeys(Sell, Abs().asks);
      id in locate
    }

    method SetLevels(side: Side, m: Levels)
      modifies this`bids, this`asks
      ensures On(side) == m && On(side.Opposite()) == old(On(side.Opposite()))
    {
      if side.Buy? { bids := m; } else { asks := m; }
    }

    /** The level at a price, made on demand. */
    method LevelMut(side: Side, px: int) returns (level: PriceLevel)
      modifies this`bids, this`asks
      ensures level == if px in old(On(side)) then old(On(side))[px] else NEW_LEVEL
      ensures On(side) == old(On(side))[px := level] && On(side.Opposite()) == old(On(side.Opposite()))
    {
      if px !in On(side) {
        SetLevels(side, On(side)[px := NEW_LEVEL]);
      }
      level := On(side)[px];
      assert old(On(side))[px := level] == On(side);
    }

    method RemoveLevel(side: Side, px: int)
      modifies this`bids, this`asks
      ensures On(side) == old(On(side)) - {px} && On(side.Opposite()) == old(On(side.Opposite()))
    {
      SetLevels(side, On(side) - {px});
    }

    /** The inner loop of a submission: consumes one level front to back while quantity is
        left, collecting the makers that are used up.  `tail` is the side behind this level. */
    method SweepLevel(o: Order, px: int, level0: PriceLevel, left0: nat, fills0: seq<Fill>,
                      ghost side: Side, ghost tail: seq<Entry>)
      returns (level: PriceLevel, left: nat, fills: seq<Fill>, cleared: seq<nat>)
      requires Acceptable(o, px) && left0 > 0 && level0.queue != []
      requires level0.totalSize == SumRemaining(level0.queue)
      requires SideValid(side, Tag(px, level0.queue) + tail)
      ensures left < left0
      ensures left > 0 ==> level.queue == []
      ensures level.totalSize == SumRemaining(level.queue)
      ensures fills0 <= fills
      ensures Sweep(side, o, Tag(px, level0.queue) + tail, left0, fills[|fills0|..], cleared,
                    Tag(px, level.queue) + tail, left)
    {
      level, left, fills, cleared := level0, left0, fills0, [];
      ghost var cur0 := Tag(px, level0.queue) + tail;
      ghost var done: seq<Fill> := [];
      while left > 0 && level.queue != []
        invariant left <= left0 && (left == left0 ==> level.queue != [])
        invariant level.totalSize == SumRemaining(level.queue)
        invariant fills == fills0 + done
        invariant Sweep(side, o, cur0, left0, done, cleared, Tag(px, level.queue) + tail, left)
        decreases left
      {
        SweepQueue(side, o, cur0, left0, done, cleared, px, level.queue, tail, left);
        var front := level.queue[0];
        var fillQty := Min(left, front.remaining);
        left := left - fillQty;
        front := front.(remaining := front.remaining - fillQty);
        level := PriceLevel(level.totalSize - fillQty, [front] + level.queue[1..]);
        var f := Fill(o.id, front.orderId, px, fillQty, o.originTs, left, o.isSynthetic, front.isSynthetic);
        fills := fills + [f];
        done := done + [f];
        if front.remaining == 0 {
          level := level.(queue := level.queue[1..]);
          cleared := cleared + [front.orderId];
        }
      }
    }

    /** Forgets the makers of a finished sweep. */
    method Unlocate(ids: seq<nat>)
      modifies this`locate
      ensures locate == old(locate) - (set id | id in ids)
    {
      for i := 0 to |ids|
        invariant locate == old(locate) - (set id | id in ids[..i])
      {
        assert ids[..i + 1] == ids[..i] + [ids[i]];
        locate := locate - {ids[i]};
      }
      assert ids[..|ids|] == ids;
    }

    /** Puts a swept best level back, or takes it off the book when it is empty. */
    method CloseLevel(side: Side, px: int, level: PriceLevel)
      requires LevelsValid(bids) && LevelsValid(asks) && IsBest(side, On(side), px)
      requires level.totalSize == SumRemaining(level.queue)
      modifies this`bids, this`asks
      ensures LevelsValid(bids) && LevelsValid(asks)
      ensures On(side.Opposite()) == old(On(side.Opposite()))
      ensures Flatten(side, On(side)) == Tag(px, level.queue) + Flatten(side, old(On(side)) - {px})
    {
      FlattenBest(side, On(side), px, level);
      SetLevels(side, On(side)[px := level]);
      if level.queue == [] {
        RemoveLevel(side, px);
        assert On(side) == old(On(side)) - {px};
      }
    }

    /** One turn of the outer loop: consumes the best level of the other side. */
    method CrossBestLevel(o: Order, px: int, left0: nat, fills0: seq<Fill>) returns (left: nat, fills: seq<Fill>)
      requires Valid() && IsBest(o.side.Opposite(), On(o.side.Opposite()), px)
      requires Acceptable(o, px) && left0 > 0
      modifies this
      ensures Valid() && On(o.side) == old(On(o.side))
      ensures left < left0 && fills0 <= fills
      ensures var opp := o.side.Opposite();
        Continues(o, old(Abs()).On(opp), left0, fills[|fills0|..], Abs().On(opp), left)
      ensures IdsOf(Abs().On(o.side.Opposite())) <= old(IdsOf(Abs().On(o.side.Opposite())))
    {
      hide Take, Located, Best, SumRemaining;
      var opp := o.side.Opposite();
      ghost var b := Abs();
      assert SideValid(opp, b.On(opp)) && IdsOf(b.bids) !! IdsOf(b.asks);
      hide FlatBook.Valid, SideValid, IdsOf;
      ghost var tail := Flatten(opp, On(opp) - {px});
      var level0 := LevelMut(opp, px);
      assert On(opp) == old(On(opp));
      FlattenBest(opp, On(opp), px, level0);
      var level, cleared;
      level, left, fills, cleared := SweepLevel(o, px, level0, left0, fills0, opp, tail);
      Unlocate(cleared);
      CloseLevel(opp, px, level);
      ghost var s := Tag(px, level.queue) + tail;
      assert Abs() == b.With(opp, s);
      IndexWithout(b, opp, s, set id | id in cleared);
      BehindLevel(opp, px, level0.queue, tail);
      ThinnerValid(b, opp, s);
    }

    /** Joins the back of the queue at a price. */
    method PushBack(side: Side, px: int, order: RestingOrder) returns (queueAhead: nat)
      requires LevelsValid(On(side))
      modifies this`bids, this`asks
      ensures LevelsValid(On(side)) && On(side.Opposite()) == old(On(side.Opposite()))
      ensures Flatten(side, On(side)) == Insert(side, old(Flatten(side, On(side))), Entry(px, order))
      ensures queueAhead == FlatBook.SizeAt(old(Flatten(side, On(side))), px)
    {
      var level := LevelMut(side, px);
      RestLevel(side, old(On(side)), px, order, level);
      queueAhead := level.totalSize;
      var pushed := PriceLevel(level.totalSize + order.remaining, level.queue + [order]);
      PutTwice(old(On(side)), px, level, pushed);
      SetLevels(side, On(side)[px := pushed]);
    }

    /** Rests the remainder of a limit order behind what is already at its price. */
    method Rest(o: Order, remaining: nat) returns (outcome: Outcome)
      requires Valid() && o.id !in Abs().Ids() && remaining > 0
      requires Abs().On(o.side.Opposite()) != [] ==> !Acceptable(o, Abs().On(o.side.Opposite())[0].px)
      requires o.isLimit
      modifies this
      ensures Valid()
      ensures var b := old(Abs());
        var e := Entry(o.limitPx, RestingOrder(o.id, remaining, o.isSynthetic));
        && Abs() == b.With(o.side, Insert(o.side, b.On(o.side), e))
        && outcome == Rested(FlatBook.SizeAt(b.On(o.side), o.limitPx))
    {
      RestValid(Abs(), o, remaining);
      var queueAhead := PushBack(o.side, o.limitPx, RestingOrder(o.id, remaining, o.isSynthetic));
      assert o.side == Buy || o.side == Sell;
      locate := locate[o.id := (o.side, o.limitPx)];
      outcome := Rested(queueAhead);
    }

    /** Crosses the other side from the best price inward for as long as the price will do. */
    method Cross(o: Order, fills0: seq<Fill>) returns (remaining: nat, fills: seq<Fill>)
      requires Valid()
      modifies this
      ensures Valid() && On(o.side) == old(On(o.side))
      ensures var opp := o.side.Opposite();
        var m := Take(o, old(Abs()).On(opp), o.quantity);
        && Abs().On(opp) == m.rest && remaining == m.left && fills == fills0 + m.fills
        && IdsOf(Abs().On(opp)) <= IdsOf(old(Abs()).On(opp))
        && (remaining > 0 && Abs().On(opp) != [] ==> !Acceptable(o, Abs().On(opp)[0].px))
    {
      hide Take, IdsOf, SideValid, Flatten, LevelsValid, Located, Best, IsBest;
      remaining, fills := o.quantity, fills0;
      var opp := o.side.Opposite();
      ghost var opp0 := Abs().On(opp);
      ghost var done: seq<Fill> := [];
      while remaining > 0
        invariant Valid() && On(o.side) == old(On(o.side))
        invariant fills == fills0 + done
        invariant Continues(o, opp0, o.quantity, done, Abs().On(opp), remaining)
        invariant IdsOf(Abs().On(opp)) <= IdsOf(opp0)
        decreases remaining
      {
        var best := BestOf(opp);
        if best.None? || !Acceptable(o, best.value) {
          break;
        }
        ghost var mid, left := Abs().On(opp), remaining;
        ghost var had := fills;
        assert IsBest(opp, On(opp), best.value);
        remaining, fills := CrossBestLevel(o, best.value, remaining, fills);
        ghost var more := fills[|had|..];
        ContinuesChain(o, opp0, o.quantity, done, mid, left, more, Abs().On(opp), remaining);
        done := done + more;
      }
      FlattenFront(opp, On(opp));
      TakeNothing(o, Abs().On(opp), remaining);
    }

    /** Submits a new order: crosses the other side, then rests or rejects the remainder.  Fills are
        appended to the given list. */
    method Submit(o: Order, fills0: seq<Fill>) returns (outcome: Outcome, fills: seq<Fill>)
      requires Valid() && Admissible(Abs(), o)
      modifies this
      ensures Valid()
      ensures var r := FlatBook.Submit(old(Abs()), o);
        Abs() == r.book && outcome == r.outcome && fills == fills0 + r.fills
      ensures Honours(o, fills[|fills0|..], Abs())
      ensures Disposes(o, fills[|fills0|..], outcome, old(Abs()), Abs())
    {
      hide Take, IdsOf, SideValid, Flatten, LevelsValid, Located, Honours, Disposes, Acceptable;
      SubmitHonours(Abs(), o);
      SubmitDisposes(Abs(), o);
      var remaining;
      remaining, fills := Cross(o, fills0);
      if remaining == 0 {
        return Outcome.Filled, fills;
      }
      if !o.isLimit {
        return Rejected(NoLiquidity), fills;
      }
      outcome := Rest(o, remaining);
    }

    /** The first position of an order in a queue. */
    method Position(q: seq<RestingOrder>, id: nat) returns (pos: Option<nat>)
      ensures pos.None? ==> !Queued(q, id)
      ensures pos.Some? ==> pos.value < |q| && q[pos.value].orderId == id
    {
      for i := 0 to |q|
        invariant forall j :: 0 <= j < i ==> q[j].orderId != id
      {
        if q[i].orderId == id {
          return Some(i);
        }
      }
      return None;
    }

    /** Cuts one order out of its level, and the level off the book when that empties it. */
    method CutOrder(side: Side, px: int, id: nat)
      requires LevelsValid(On(side)) && SideValid(side, Flatten(side, On(side)))
      requires px in On(side) && Queued(On(side)[px].queue, id)
      modifies this`bids, this`asks
      ensures LevelsValid(On(side)) && On(side.Opposite()) == old(On(side.Opposite()))
      ensures Flatten(side, On(side)) == Remove(old(Flatten(side, On(side))), id)
    {
      var level := LevelMut(side, px);
      assert On(side) == old(On(side));
      var found := Position(level.queue, id);
      if found.Some? {
        var pos := found.value;
        SumCut(level.queue, pos);
        FlattenRemove(side, On(side), px, pos, id);
        level := PriceLevel(level.totalSize - level.queue[pos].remaining,
                            level.queue[..pos] + level.queue[pos + 1..]);
        SetLevels(side, On(side)[px := level]);
      }
      if level.queue == [] {
        RemoveLevel(side, px);
        assert On(side) == old(On(side)) - {px};
      }
    }

    /** Cancels a resting order by id; an id the index does not know is rejected. */
    method Cancel(id: nat) returns (outcome: Outcome)
      requires Valid()
      modifies this
      ensures Valid()
      ensures var r := FlatBook.Cancel(old(Abs()), id);
        Abs() == r.book && outcome == r.outcome
    {
      hide IdsOf, SideValid, Flatten, LevelsValid, Located, Remove;
      ghost var b := Abs();
      LocatedKeys(Buy, b.bids);
      LocatedKeys(Sell, b.asks);
      if id !in locate {
        return CancelRejected;
      }
      var (side, px) := locate[id];
      CancelTarget(b, bids, asks, id);
      CancelValid(b, id);
      IndexRemove(b, id);
      locate := locate - {id};
      CutOrder(side, px, id);
      assert side == Buy || side == Sell;
      outcome := Cancelled;
    }
  }
}
