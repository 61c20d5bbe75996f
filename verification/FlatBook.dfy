/** The vocabulary of the venue and its matching rule, stated on plain sequences.

    A side of the book is flattened into one sequence of entries in price-time
    priority: best price first, arrival order within a price.  Everything the
    matching engine promises is said about these sequences; the class in
    OrderBook.dfy, with its price levels, cached sizes and locate index, is proved
    to do exactly this. */
module FlatBook {

  datatype Side = Buy | Sell {
    function Opposite(): Side {
      if Buy? then Sell else Buy
    }
  }

  /** Decodes the wire byte: zero buys, anything else sells. */
  function SideFromU8(v: nat): Side {
    if v == 0 then Buy else Sell
  }

  /** One resting order in a price level's queue. */
  datatype RestingOrder = RestingOrder(orderId: nat, remaining: nat, isSynthetic: bool)

  datatype Fill = Fill(takerOrderId: nat, makerOrderId: nat, priceTicks: int, quantity: nat,
                       takerOriginTs: nat, takerRemainingAfter: nat,
                       takerIsSynthetic: bool, makerIsSynthetic: bool)

  datatype Reject = NoLiquidity

  datatype Outcome =
    | Filled
    | Rested(queueAhead: nat)
    | Rejected(reason: Reject)
    | Cancelled
    | CancelRejected

  /** The arguments of one submission. */
  datatype Order = Order(id: nat, side: Side, isLimit: bool, limitPx: int, quantity: nat,
                         originTs: nat, isSynthetic: bool)

  /** A resting order together with the price it rests at. */
  datatype Entry = Entry(px: int, order: RestingOrder) {
    predicate Is(id: nat) {
      order.orderId == id
    }

    function Reduced(q: nat): Entry
      requires q <= order.remaining
    {
      this.(order := order.(remaining := order.remaining - q))
    }
  }

  datatype Ladder = Ladder(bids: seq<Entry>, asks: seq<Entry>) {
    function On(side: Side): seq<Entry> {
      if side.Buy? then bids else asks
    }

    function With(side: Side, s: seq<Entry>): Ladder {
      if side.Buy? then this.(bids := s) else this.(asks := s)
    }

    function Ids(): set<nat> {
      IdsOf(bids) + IdsOf(asks)
    }
  }

  const EMPTY := Ladder([], [])

  function IdsOf(s: seq<Entry>): set<nat> {
    if s == [] then {} else {s[0].order.orderId} + IdsOf(s[1..])
  }

  function Min(a: nat, b: nat): nat {
    if a < b then a else b
  }

  // ------------------------------------------------------------ validity

  /** Price p has strictly better priority than q on the given side. */
  predicate Better(side: Side, p: int, q: int) {
    if side.Buy? then p > q else p < q
  }

  /** In priority order, every order still working, no id twice. */
  predicate SideValid(side: Side, s: seq<Entry>) {
    s != [] ==>
      && s[0].order.remaining > 0
      && s[0].order.orderId !in IdsOf(s[1..])
      && (|s| > 1 ==> !Better(side, s[1].px, s[0].px))
      && SideValid(side, s[1..])
  }

  predicate Valid(b: Ladder) {
    && SideValid(Buy, b.bids)
    && SideValid(Sell, b.asks)
    && IdsOf(b.bids) !! IdsOf(b.asks)
    && (b.bids != [] && b.asks != [] ==> b.bids[0].px < b.asks[0].px)
  }

  /** The best price of a side is at its front, and priority holds between any two entries. */
  lemma {:induction false} PriorityOrder(side: Side, s: seq<Entry>)
    requires SideValid(side, s)
    ensures forall i, j :: 0 <= i < j < |s| ==> !Better(side, s[j].px, s[i].px)
  {
    if |s| > 1 {
      PriorityOrder(side, s[1..]);
      forall i, j | 0 <= i < j < |s| ensures !Better(side, s[j].px, s[i].px) {
        if i > 0 {
          assert s[i] == s[1..][i - 1] && s[j] == s[1..][j - 1];
        } else if j > 1 {
          assert s[1] == s[1..][0] && s[j] == s[1..][j - 1];
        }
      }
    }
  }

  // ------------------------------------------------------------ the matching rule

  /** A market order takes any price; a limit order only prices at least as good as its limit. */
  predicate Acceptable(o: Order, px: int) {
    o.isLimit ==> if o.side.Buy? then px <= o.limitPx else px >= o.limitPx
  }

  function MakeFill(o: Order, e: Entry, q: nat, left: nat): Fill {
    Fill(o.id, e.order.orderId, e.px, q, o.originTs, left, o.isSynthetic, e.order.isSynthetic)
  }

  datatype Match = Match(fills: seq<Fill>, left: nat, rest: seq<Entry>)

  /** The greedy matcher: take from the front while quantity is left and the price will do. */
  function Take(o: Order, opp: seq<Entry>, left: nat): Match {
    if left == 0 || opp == [] || !Acceptable(o, opp[0].px) then
      Match([], left, opp)
    else
      var e := opp[0];
      var q := Min(left, e.order.remaining);
      var f := MakeFill(o, e, q, left - q);
      if q < e.order.remaining then
        Match([f], left - q, [e.Reduced(q)] + opp[1..])
      else
        var m := Take(o, opp[1..], left - q);
        Match([f] + m.fills, m.left, m.rest)
  }

  /** Joins the queue of its price: behind every entry of a better or equal price. */
  function Insert(side: Side, s: seq<Entry>, e: Entry): seq<Entry> {
    if s == [] || Better(side, e.px, s[0].px) then [e] + s
    else [s[0]] + Insert(side, s[1..], e)
  }

  function Remove(s: seq<Entry>, id: nat): seq<Entry> {
    if s == [] then []
    else if s[0].Is(id) then Remove(s[1..], id)
    else [s[0]] + Remove(s[1..], id)
  }

  /** The size resting at one price. */
  function SizeAt(s: seq<Entry>, px: int): nat {
    if s == [] then 0 else (if s[0].px == px then s[0].order.remaining else 0) + SizeAt(s[1..], px)
  }

  datatype Result = Result(book: Ladder, fills: seq<Fill>, outcome: Outcome)

  /** One submission: cross the opposite side, then rest or reject the remainder. */
  function Submit(b: Ladder, o: Order): Result {
    var m := Take(o, b.On(o.side.Opposite()), o.quantity);
    var crossed := b.With(o.side.Opposite(), m.rest);
    if m.left == 0 then
      Result(crossed, m.fills, Filled)
    else if !o.isLimit then
      Result(crossed, m.fills, Rejected(NoLiquidity))
    else
      var own := b.On(o.side);
      var e := Entry(o.limitPx, RestingOrder(o.id, m.left, o.isSynthetic));
      Result(crossed.With(o.side, Insert(o.side, own, e)), m.fills, Rested(SizeAt(own, o.limitPx)))
  }

  function Cancel(b: Ladder, id: nat): Result {
    if id in b.Ids() then
      Result(Ladder(Remove(b.bids, id), Remove(b.asks, id)), [], Cancelled)
    else
      Result(b, [], CancelRejected)
  }

  // ------------------------------------------------------------ what Insert and Remove keep

  /** Resting an order with a new id keeps the side valid and adds that id only. */
  lemma {:induction false} InsertValid(side: Side, s: seq<Entry>, e: Entry)
    requires SideValid(side, s) && e.order.remaining > 0 && e.order.orderId !in IdsOf(s)
    ensures SideValid(side, Insert(side, s, e))
    ensures IdsOf(Insert(side, s, e)) == IdsOf(s) + {e.order.orderId}
  {
    if s == [] || Better(side, e.px, s[0].px) {
      assert ([e] + s)[1..] == s;
    } else {
      InsertValid(side, s[1..], e);
      var t := Insert(side, s[1..], e);
      assert ([s[0]] + t)[1..] == t;
    }
  }

  /** Removing an id keeps the side valid, drops that id only, and changes nothing if it is absent. */
  lemma {:induction false} RemoveValid(side: Side, s: seq<Entry>, id: nat)
    ensures IdsOf(Remove(s, id)) == IdsOf(s) - {id}
    ensures id !in IdsOf(s) ==> Remove(s, id) == s
    ensures SideValid(side, s) ==> SideValid(side, Remove(s, id))
    ensures SideValid(side, s) && Remove(s, id) != [] ==> !Better(side, Remove(s, id)[0].px, s[0].px)
  {
    if s != [] {
      RemoveValid(side, s[1..], id);
      var t := Remove(s[1..], id);
      if !s[0].Is(id) {
        assert ([s[0]] + t)[1..] == t;
        assert s == [s[0]] + s[1..];
      }
    }
  }

  // ------------------------------------------------------------ what matching means

  /** What a match leaves on the opposite side is valid, holds only ids that were there,
      and is untouched from the first unacceptable price on when the taker is not done. */
  lemma {:induction false} TakeValid(o: Order, side: Side, opp: seq<Entry>, left: nat)
    requires SideValid(side, opp)
    ensures var m := Take(o, opp, left);
      && SideValid(side, m.rest)
      && IdsOf(m.rest) <= IdsOf(opp)
      && (m.rest != [] ==> opp != [] && !Better(side, m.rest[0].px, opp[0].px))
      && (m.left > 0 && m.rest != [] ==> !Acceptable(o, m.rest[0].px))
      && m.left <= left
  {
    if left == 0 || opp == [] || !Acceptable(o, opp[0].px) {
    } else {
      var e := opp[0];
      var q := Min(left, e.order.remaining);
      if q < e.order.remaining {
        var r := [e.Reduced(q)] + opp[1..];
        assert r[1..] == opp[1..];
      } else {
        TakeValid(o, side, opp[1..], left - q);
      }
    }
  }

  /** An order that may rest needs an id that is not resting already: the locate index
      holds one place for each id. */
  predicate Admissible(b: Ladder, o: Order) {
    o.isLimit ==> o.id !in b.Ids()
  }

  /** An admissible submission keeps the book valid: in order, working, and uncrossed. */
  lemma {:induction false} SubmitValid(b: Ladder, o: Order)
    requires Valid(b) && Admissible(b, o)
    ensures Valid(Submit(b, o).book)
    ensures Submit(b, o).book.Ids() <= b.Ids() + {o.id}
    ensures o.id !in b.Ids() ==> (o.id in Submit(b, o).book.Ids() <==> Submit(b, o).outcome.Rested?)
  {
    hide Take, SideValid, IdsOf;
    var opp := o.side.Opposite();
    var m := Take(o, b.On(opp), o.quantity);
    TakeValid(o, opp, b.On(opp), o.quantity);
    if m.left > 0 && o.isLimit {
      var own := b.On(o.side);
      InsertValid(o.side, own, Entry(o.limitPx, RestingOrder(o.id, m.left, o.isSynthetic)));
    }
  }

  lemma {:induction false} CancelValid(b: Ladder, id: nat)
    requires Valid(b)
    ensures Valid(Cancel(b, id).book)
    ensures Cancel(b, id).book.Ids() == b.Ids() - {id}
  {
    RemoveValid(Buy, b.bids, id);
    RemoveValid(Sell, b.asks, id);
  }

  function Volume(fills: seq<Fill>): nat {
    if fills == [] then 0 else fills[0].quantity + Volume(fills[1..])
  }

  /** The resting size a taker may take: the entries before the first unacceptable price. */
  function Reachable(o: Order, opp: seq<Entry>): nat {
    if opp == [] || !Acceptable(o, opp[0].px) then 0
    else opp[0].order.remaining + Reachable(o, opp[1..])
  }

  /** A taker gets all it asked for or all there is at acceptable prices, whichever is less. */
  lemma {:induction false} TakeVolume(o: Order, opp: seq<Entry>, left: nat)
    ensures var m := Take(o, opp, left);
      Volume(m.fills) == Min(left, Reachable(o, opp)) && m.left == left - Volume(m.fills)
  {
    if left == 0 || opp == [] || !Acceptable(o, opp[0].px) {
    } else {
      var e := opp[0];
      var q := Min(left, e.order.remaining);
      if q == e.order.remaining {
        TakeVolume(o, opp[1..], left - q);
        var n := Take(o, opp[1..], left - q);
        assert ([MakeFill(o, e, q, left - q)] + n.fills)[1..] == n.fills;
      }
    }
  }

  /** Fill f hits entry e on behalf of order o. */
  predicate Hits(o: Order, f: Fill, e: Entry) {
    && f.takerOrderId == o.id && f.takerOriginTs == o.originTs && f.takerIsSynthetic == o.isSynthetic
    && f.makerOrderId == e.order.orderId && f.makerIsSynthetic == e.order.isSynthetic
    && f.priceTicks == e.px && Acceptable(o, e.px)
    && 0 < f.quantity <= e.order.remaining
  }

  /** The i-th fill hits the i-th entry in priority order, every fill but the last takes the
      whole entry, and the side afterwards is what comes behind the last entry hit, which
      itself stays in front when it was not used up. */
  predicate IsGreedyPrefix(o: Order, opp: seq<Entry>, fills: seq<Fill>, rest: seq<Entry>) {
    var n := |fills|;
    && n <= |opp|
    && (forall i :: 0 <= i < n ==> Hits(o, fills[i], opp[i]))
    && (forall i :: 0 <= i < n - 1 ==> fills[i].quantity == opp[i].order.remaining)
    && rest == if n > 0 && fills[n - 1].quantity < opp[n - 1].order.remaining
               then [opp[n - 1].Reduced(fills[n - 1].quantity)] + opp[n..]
               else opp[n..]
  }

  lemma {:induction false} GreedyCons(o: Order, f: Fill, fills: seq<Fill>, opp: seq<Entry>, rest: seq<Entry>)
    requires opp != [] && Hits(o, f, opp[0]) && f.quantity == opp[0].order.remaining
    requires IsGreedyPrefix(o, opp[1..], fills, rest)
    ensures IsGreedyPrefix(o, opp, [f] + fills, rest)
  {
    hide Hits;
    assert forall i :: 0 <= i < |fills| ==> opp[1..][i] == opp[i + 1];
    assert opp[1..][|fills|..] == opp[|fills| + 1..];
  }

  lemma {:induction false} TakeIsGreedyPrefix(o: Order, side: Side, opp: seq<Entry>, left: nat)
    requires SideValid(side, opp)
    ensures IsGreedyPrefix(o, opp, Take(o, opp, left).fills, Take(o, opp, left).rest)
  {
    if left == 0 || opp == [] || !Acceptable(o, opp[0].px) {
    } else {
      var e := opp[0];
      var q := Min(left, e.order.remaining);
      var f := MakeFill(o, e, q, left - q);
      assert Hits(o, f, e);
      hide Hits;
      if q == e.order.remaining {
        TakeIsGreedyPrefix(o, side, opp[1..], left - q);
        var m, n := Take(o, opp, left), Take(o, opp[1..], left - q);
        assert m.fills == [f] + n.fills && m.rest == n.rest;
        hide IsGreedyPrefix;
        GreedyCons(o, f, n.fills, opp, n.rest);
      }
    }
  }

  /** Each fill carries what the taker still wants after it; zero only on the last. */
  ghost predicate CountsDown(fills: seq<Fill>, left: nat) {
    forall i :: 0 <= i < |fills| ==>
      && fills[i].takerRemainingAfter + Volume(fills[..i + 1]) == left
      && (fills[i].takerRemainingAfter == 0 ==> i == |fills| - 1)
  }

  lemma {:induction false} CountsDownCons(f: Fill, fills: seq<Fill>, left: nat)
    requires f.quantity <= left && f.takerRemainingAfter == left - f.quantity
    requires f.takerRemainingAfter == 0 ==> fills == []
    requires CountsDown(fills, left - f.quantity)
    ensures CountsDown([f] + fills, left)
  {
    var all := [f] + fills;
    forall i | 0 <= i < |all|
      ensures all[i].takerRemainingAfter + Volume(all[..i + 1]) == left
      ensures all[i].takerRemainingAfter == 0 ==> i == |all| - 1
    {
      assert all[..i + 1][1..] == fills[..i];
      if i > 0 { assert all[i] == fills[i - 1]; }
    }
  }

  lemma {:induction false} TakeCountsDown(o: Order, opp: seq<Entry>, left: nat)
    ensures CountsDown(Take(o, opp, left).fills, left)
  {
    var fills := Take(o, opp, left).fills;
    if fills != [] {
      var f := fills[0];
      var n := if |fills| > 1 then Take(o, opp[1..], left - f.quantity).fills else [];
      assert fills == [f] + n;
      if |fills| > 1 { TakeCountsDown(o, opp[1..], left - f.quantity); }
      CountsDownCons(f, n, left);
    }
  }

  lemma {:induction false} TakeRunningRemainder(o: Order, opp: seq<Entry>, left: nat, i: nat)
    requires i < |Take(o, opp, left).fills|
    ensures var fills := Take(o, opp, left).fills;
      && fills[i].takerRemainingAfter + Volume(fills[..i + 1]) == left
      && (fills[i].takerRemainingAfter == 0 ==> i == |fills| - 1)
  {
    hide Take;
    TakeCountsDown(o, opp, left);
  }

  /** Fill prices only worsen along one submission. */
  lemma {:induction false} TakePricesWorsen(o: Order, side: Side, opp: seq<Entry>, left: nat, i: nat, j: nat)
    requires SideValid(side, opp) && i < j < |Take(o, opp, left).fills|
    ensures var fills := Take(o, opp, left).fills;
      !Better(side, fills[j].priceTicks, fills[i].priceTicks)
  {
    TakeIsGreedyPrefix(o, side, opp, left);
    PriorityOrder(side, opp);
  }

  // ------------------------------------------------------------ what a submission does, in plain numbers

  /** What is done for an order and what is left over, prices compared as numbers.  A buy pays at
      most its limit and a sale takes at least its own; while quantity is left, nothing remains on
      the other side that the order would have taken. */
  ghost predicate Honours(o: Order, fills: seq<Fill>, book: Ladder) {
    && (o.isLimit && o.side == Buy ==> forall f :: f in fills ==> f.priceTicks <= o.limitPx)
    && (o.isLimit && o.side == Sell ==> forall f :: f in fills ==> f.priceTicks >= o.limitPx)
    && Volume(fills) <= o.quantity
    && (Volume(fills) < o.quantity ==>
          && (!o.isLimit && o.side == Buy ==> book.asks == [])
          && (!o.isLimit && o.side == Sell ==> book.bids == [])
          && (o.isLimit && o.side == Buy ==> forall i :: 0 <= i < |book.asks| ==> book.asks[i].px > o.limitPx)
          && (o.isLimit && o.side == Sell ==> forall i :: 0 <= i < |book.bids| ==> book.bids[i].px < o.limitPx))
  }

  /** What becomes of the remainder: it rests on the order's own side at its limit, or a market
      order's is turned away, and otherwise nothing of the order is in the book. */
  ghost predicate Disposes(o: Order, fills: seq<Fill>, outcome: Outcome, before: Ladder, book: Ladder) {
    var left := o.quantity - Volume(fills);
    var own := if o.side == Buy then book.bids else book.asks;
    && (outcome == Filled <==> left == 0)
    && (outcome.Rested? <==> left > 0 && o.isLimit)
    && (outcome == Rejected(NoLiquidity) <==> left > 0 && !o.isLimit)
    && (left > 0 && o.isLimit ==> Entry(o.limitPx, RestingOrder(o.id, left, o.isSynthetic)) in own)
    && (o.id !in before.Ids() && !(left > 0 && o.isLimit) ==> o.id !in book.Ids())
  }

  lemma {:induction false} InsertHas(side: Side, s: seq<Entry>, e: Entry)
    ensures e in Insert(side, s, e)
  {
    if s == [] || Better(side, e.px, s[0].px) {
      assert ([e] + s)[0] == e;
    } else {
      InsertHas(side, s[1..], e);
    }
  }

  /** Every fill is at an acceptable price, and an unfinished taker leaves none. */
  lemma {:induction false} TakeAcceptable(o: Order, side: Side, opp: seq<Entry>, left: nat)
    requires SideValid(side, opp) && side == o.side.Opposite()
    ensures var m := Take(o, opp, left);
      && (forall f :: f in m.fills ==> Acceptable(o, f.priceTicks))
      && (m.left > 0 ==> forall i :: 0 <= i < |m.rest| ==> !Acceptable(o, m.rest[i].px))
  {
    var m := Take(o, opp, left);
    TakeIsGreedyPrefix(o, side, opp, left);
    TakeValid(o, side, opp, left);
    PriorityOrder(side, m.rest);
    hide Take;
    forall i | m.left > 0 && 0 <= i < |m.rest| ensures !Acceptable(o, m.rest[i].px) {
      assert !Better(side, m.rest[i].px, m.rest[0].px);
    }
  }

  /** The limit is honoured, for every order on every valid book. */
  lemma {:induction false} SubmitHonours(b: Ladder, o: Order)
    requires Valid(b)
    ensures Honours(o, Submit(b, o).fills, Submit(b, o).book)
    ensures o.side == Buy ==> IsGreedyPrefix(o, b.asks, Submit(b, o).fills, Submit(b, o).book.asks)
    ensures o.side == Sell ==> IsGreedyPrefix(o, b.bids, Submit(b, o).fills, Submit(b, o).book.bids)
  {
    hide Take, SideValid, IsGreedyPrefix, IdsOf, Insert;
    var opp := o.side.Opposite();
    assert opp == Buy || opp == Sell;
    TakeAcceptable(o, opp, b.On(opp), o.quantity);
    TakeVolume(o, b.On(opp), o.quantity);
    TakeIsGreedyPrefix(o, opp, b.On(opp), o.quantity);
    var m := Take(o, b.On(opp), o.quantity);
    if m.left > 0 && m.rest != [] { assert !Acceptable(o, m.rest[0].px); }
  }

  /** The remainder is accounted for. */
  lemma {:induction false} SubmitDisposes(b: Ladder, o: Order)
    requires Valid(b)
    ensures Disposes(o, Submit(b, o).fills, Submit(b, o).outcome, b, Submit(b, o).book)
  {
    hide Take, SideValid, IdsOf, Insert, Acceptable;
    var opp := o.side.Opposite();
    var m := Take(o, b.On(opp), o.quantity);
    TakeVolume(o, b.On(opp), o.quantity);
    TakeValid(o, opp, b.On(opp), o.quantity);
    InsertHas(o.side, b.On(o.side), Entry(o.limitPx, RestingOrder(o.id, m.left, o.isSynthetic)));
  }
}
