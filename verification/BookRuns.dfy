/** What the matching rule promises over whole runs: every unit of every order is accounted
    for, a queue position only ever shrinks and is honoured, and an order that is never
    filled leaves no trace once it is cancelled. */
module BookRuns {
  import opened FlatBook

  datatype Event = New(o: Order) | Pull(id: nat)

  function Step(b: Ladder, ev: Event): Result {
    match ev
    case New(o) => Submit(b, o)
    case Pull(id) => Cancel(b, id)
  }

  function After(b: Ladder, evs: seq<Event>): Ladder
    decreases |evs|
  {
    if evs == [] then b else After(Step(b, evs[0]).book, evs[1..])
  }

  /** Every fill of the run, in order. */
  function RunFills(b: Ladder, evs: seq<Event>): seq<Fill>
    decreases |evs|
  {
    if evs == [] then [] else Step(b, evs[0]).fills + RunFills(Step(b, evs[0]).book, evs[1..])
  }

  /** No order is submitted under an id that is resting at that moment. */
  predicate FreshRun(b: Ladder, evs: seq<Event>)
    decreases |evs|
  {
    evs != [] ==>
      && (evs[0].New? ==> evs[0].o.id !in b.Ids())
      && FreshRun(Step(b, evs[0]).book, evs[1..])
  }

  lemma {:induction false} StepValid(b: Ladder, ev: Event)
    requires Valid(b) && (ev.New? ==> ev.o.id !in b.Ids())
    ensures Valid(Step(b, ev).book)
  {
    match ev
    case New(o) => SubmitValid(b, o);
    case Pull(id) => CancelValid(b, id);
  }

  /** Every book reached from a valid one by fresh orders and cancels is valid. */
  lemma {:induction false} ReachableValid(b: Ladder, evs: seq<Event>)
    requires Valid(b) && FreshRun(b, evs)
    ensures Valid(After(b, evs))
    decreases |evs|
  {
    if evs != [] {
      StepValid(b, evs[0]);
      ReachableValid(Step(b, evs[0]).book, evs[1..]);
    }
  }

  // ------------------------------------------------------------ conservation

  function RestingOf(s: seq<Entry>, id: nat): nat {
    if s == [] then 0 else (if s[0].Is(id) then s[0].order.remaining else 0) + RestingOf(s[1..], id)
  }

  function Resting(b: Ladder, id: nat): nat {
    RestingOf(b.bids, id) + RestingOf(b.asks, id)
  }

  function TakenBy(fills: seq<Fill>, id: nat): nat {
    if fills == [] then 0
    else (if fills[0].takerOrderId == id then fills[0].quantity else 0) + TakenBy(fills[1..], id)
  }

  function MadeBy(fills: seq<Fill>, id: nat): nat {
    if fills == [] then 0
    else (if fills[0].makerOrderId == id then fills[0].quantity else 0) + MadeBy(fills[1..], id)
  }

  /** Quantity of one order id put in over a run. */
  function Submitted(evs: seq<Event>, id: nat): nat {
    if evs == [] then 0
    else (if evs[0].New? && evs[0].o.id == id then evs[0].o.quantity else 0) + Submitted(evs[1..], id)
  }

  /** Quantity of one order id taken off the book by cancels over a run. */
  function Withdrawn(b: Ladder, evs: seq<Event>, id: nat): nat
    decreases |evs|
  {
    if evs == [] then 0
    else
      (if evs[0] == Pull(id) && Step(b, evs[0]).outcome.Cancelled? then Resting(b, id) else 0)
      + Withdrawn(Step(b, evs[0]).book, evs[1..], id)
  }

  /** Quantity of one order id turned away for want of liquidity over a run. */
  function TurnedAway(b: Ladder, evs: seq<Event>, id: nat): int
    decreases |evs|
  {
    if evs == [] then 0
    else
      var r := Step(b, evs[0]);
      (if evs[0].New? && evs[0].o.id == id && r.outcome.Rejected? then evs[0].o.quantity - Volume(r.fills) else 0)
      + TurnedAway(r.book, evs[1..], id)
  }

  lemma {:induction false} TakeConserves(o: Order, opp: seq<Entry>, left: nat, id: nat)
    ensures var m := Take(o, opp, left);
      && RestingOf(opp, id) == MadeBy(m.fills, id) + RestingOf(m.rest, id)
      && TakenBy(m.fills, id) == if o.id == id then Volume(m.fills) else 0
  {
    if left == 0 || opp == [] || !Acceptable(o, opp[0].px) {
    } else {
      var e := opp[0];
      var q := Min(left, e.order.remaining);
      var f := MakeFill(o, e, q, left - q);
      var m := Take(o, opp, left);
      if q < e.order.remaining {
        assert m.fills == [f] && m.rest == [e.Reduced(q)] + opp[1..];
        hide Take, Acceptable;
        assert m.rest[1..] == opp[1..] && m.fills[1..] == [];
      } else {
        TakeConserves(o, opp[1..], left - q, id);
        var n := Take(o, opp[1..], left - q);
        assert m.fills == [f] + n.fills && m.rest == n.rest;
        hide Take, Acceptable;
        assert m.fills[1..] == n.fills;
      }
    }
  }

  lemma {:induction false} InsertConserves(side: Side, s: seq<Entry>, e: Entry, id: nat)
    ensures RestingOf(Insert(side, s, e), id) == RestingOf(s, id) + if e.Is(id) then e.order.remaining else 0
  {
    if s == [] || Better(side, e.px, s[0].px) {
      assert ([e] + s)[1..] == s;
    } else {
      InsertConserves(side, s[1..], e, id);
      var t := Insert(side, s[1..], e);
      assert ([s[0]] + t)[1..] == t;
    }
  }

  lemma {:induction false} RemoveConserves(s: seq<Entry>, gone: nat, id: nat)
    ensures RestingOf(Remove(s, gone), id) == if gone == id then 0 else RestingOf(s, id)
  {
    if s != [] {
      RemoveConserves(s[1..], gone, id);
      var t := Remove(s[1..], gone);
      assert ([s[0]] + t)[1..] == t;
    }
  }

  lemma {:induction false} NotResting(s: seq<Entry>, id: nat)
    requires id !in IdsOf(s)
    ensures RestingOf(s, id) == 0
  {
    if s != [] { NotResting(s[1..], id); }
  }

  lemma {:induction false} SubmitConserves(b: Ladder, o: Order, id: nat)
    ensures var r := Submit(b, o);
      && Resting(b, id) + (if o.id == id then o.quantity else 0)
         == TakenBy(r.fills, id) + MadeBy(r.fills, id) + Resting(r.book, id)
            + (if o.id == id && r.outcome.Rejected? then o.quantity - Volume(r.fills) else 0)
  {
    var opp := b.On(o.side.Opposite());
    var m := Take(o, opp, o.quantity);
    TakeConserves(o, opp, o.quantity, id);
    TakeVolume(o, opp, o.quantity);
    if m.left > 0 && o.isLimit {
      InsertConserves(o.side, b.On(o.side), Entry(o.limitPx, RestingOrder(o.id, m.left, o.isSynthetic)), id);
    }
  }

  lemma {:induction false} StepConserves(b: Ladder, ev: Event, id: nat)
    ensures var r := Step(b, ev);
      Resting(b, id) + Submitted([ev], id)
      == TakenBy(r.fills, id) + MadeBy(r.fills, id) + Resting(r.book, id)
         + Withdrawn(b, [ev], id) + TurnedAway(b, [ev], id)
  {
    assert [ev][1..] == [];
    match ev
    case New(o) =>
      SubmitConserves(b, o, id);
    case Pull(x) =>
      RemoveConserves(b.bids, x, id);
      RemoveConserves(b.asks, x, id);
      NotRestingAnywhere(b, x);
  }

  lemma {:induction false} NotRestingAnywhere(b: Ladder, id: nat)
    ensures id !in b.Ids() ==> Resting(b, id) == 0
  {
    if id !in b.Ids() {
      NotResting(b.bids, id);
      NotResting(b.asks, id);
    }
  }

  lemma {:induction false} FillSumsAppend(f: seq<Fill>, g: seq<Fill>, id: nat)
    ensures TakenBy(f + g, id) == TakenBy(f, id) + TakenBy(g, id)
    ensures MadeBy(f + g, id) == MadeBy(f, id) + MadeBy(g, id)
  {
    if f == [] {
      assert f + g == g;
    } else {
      FillSumsAppend(f[1..], g, id);
      assert (f + g)[1..] == f[1..] + g;
    }
  }

  /** Over every run, for every id: what rested plus what was submitted is what was filled as
      taker, filled as maker, withdrawn, turned away, or rests still. */
  lemma {:induction false} Conservation(b: Ladder, evs: seq<Event>, id: nat)
    ensures var fills := RunFills(b, evs);
      Resting(b, id) + Submitted(evs, id)
      == TakenBy(fills, id) + MadeBy(fills, id) + Resting(After(b, evs), id)
         + Withdrawn(b, evs, id) + TurnedAway(b, evs, id)
    decreases |evs|
  {
    if evs != [] {
      var r := Step(b, evs[0]);
      StepConserves(b, evs[0], id);
      Conservation(r.book, evs[1..], id);
      FillSumsAppend(r.fills, RunFills(r.book, evs[1..]), id);
      assert [evs[0]][1..] == [];
    }
  }

  // ------------------------------------------------------------ queue position

  /** The size resting at price px in front of the order `id`. */
  function AheadQty(s: seq<Entry>, id: nat, px: int): nat {
    if s == [] || s[0].Is(id) then 0
    else (if s[0].px == px then s[0].order.remaining else 0) + AheadQty(s[1..], id, px)
  }

  /** The orders at price px in front of the order `id`. */
  function AheadIds(s: seq<Entry>, id: nat, px: int): set<nat> {
    if s == [] || s[0].Is(id) then {}
    else (if s[0].px == px then {s[0].order.orderId} else {}) + AheadIds(s[1..], id, px)
  }

  predicate RestsAt(s: seq<Entry>, id: nat, px: int) {
    s != [] && if s[0].Is(id) then s[0].px == px else RestsAt(s[1..], id, px)
  }

  /** Volume filled from a set of makers. */
  function DrainedFrom(fills: seq<Fill>, makers: set<nat>): nat {
    if fills == [] then 0
    else (if fills[0].makerOrderId in makers then fills[0].quantity else 0) + DrainedFrom(fills[1..], makers)
  }

  /** Volume filled or cancelled, in one event, from the orders ahead of `id`. */
  function Drained(b: Ladder, ev: Event, side: Side, id: nat, px: int): nat {
    var ahead := AheadIds(b.On(side), id, px);
    match ev
    case New(o) => DrainedFrom(Submit(b, o).fills, ahead)
    case Pull(x) => if x in ahead then RestingOf(b.On(side), x) else 0
  }

  function RunDrained(b: Ladder, evs: seq<Event>, side: Side, id: nat, px: int): nat
    decreases |evs|
  {
    if evs == [] then 0
    else Drained(b, evs[0], side, id, px) + RunDrained(Step(b, evs[0]).book, evs[1..], side, id, px)
  }

  lemma {:induction false} AheadAmongIds(s: seq<Entry>, id: nat, px: int)
    ensures AheadIds(s, id, px) <= IdsOf(s) - {id}
    ensures RestsAt(s, id, px) ==> id in IdsOf(s)
  {
    if s != [] { AheadAmongIds(s[1..], id, px); }
  }

  lemma {:induction false} MakersAreResting(o: Order, opp: seq<Entry>, left: nat)
    ensures forall f :: f in Take(o, opp, left).fills ==> f.makerOrderId in IdsOf(opp)
  {
    if left == 0 || opp == [] || !Acceptable(o, opp[0].px) {
    } else {
      MakersAreResting(o, opp[1..], left - Min(left, opp[0].order.remaining));
    }
  }

  lemma {:induction false} DrainedFromAgrees(fills: seq<Fill>, s: set<nat>, t: set<nat>)
    requires forall f :: f in fills ==> (f.makerOrderId in s <==> f.makerOrderId in t)
    ensures DrainedFrom(fills, s) == DrainedFrom(fills, t)
  {
    if fills != [] { DrainedFromAgrees(fills[1..], s, t); }
  }

  lemma {:induction false} DrainedFromNone(fills: seq<Fill>)
    ensures DrainedFrom(fills, {}) == 0
  {
    if fills != [] { DrainedFromNone(fills[1..]); }
  }

  /** Fills take from the orders ahead exactly what the position loses. */
  ghost predicate Advances(s: seq<Entry>, fills: seq<Fill>, rest: seq<Entry>, id: nat, px: int) {
    id in IdsOf(rest) ==>
      && RestsAt(rest, id, px)
      && AheadQty(rest, id, px) + DrainedFrom(fills, AheadIds(s, id, px)) == AheadQty(s, id, px)
  }

  /** The front is filled in part. */
  lemma {:induction false} AdvancesPartly(s: seq<Entry>, f: Fill, id: nat, px: int)
    requires s != [] && RestsAt(s, id, px) && s[0].order.orderId !in IdsOf(s[1..])
    requires f.makerOrderId == s[0].order.orderId && f.quantity < s[0].order.remaining
    ensures Advances(s, [f], [s[0].Reduced(f.quantity)] + s[1..], id, px)
  {
    var rest := [s[0].Reduced(f.quantity)] + s[1..];
    assert rest[1..] == s[1..] && [f][1..] == [];
    AheadAmongIds(s[1..], id, px);
  }

  /** The front, which is not the order itself, is used up. */
  lemma {:induction false} AdvancesPast(s: seq<Entry>, f: Fill, fills: seq<Fill>, rest: seq<Entry>, id: nat, px: int)
    requires s != [] && !s[0].Is(id) && s[0].order.orderId !in IdsOf(s[1..])
    requires f.makerOrderId == s[0].order.orderId && f.quantity == s[0].order.remaining
    requires forall g :: g in fills ==> g.makerOrderId in IdsOf(s[1..])
    requires Advances(s[1..], fills, rest, id, px)
    ensures Advances(s, [f] + fills, rest, id, px)
  {
    hide AheadIds, DrainedFrom, IdsOf, RestsAt;
    DrainedHead([f] + fills, fills, s, id, px);
  }

  /** A match against the side takes from the orders ahead exactly what the position loses. */
  lemma {:induction false} TakeAdvances(o: Order, side: Side, s: seq<Entry>, left: nat, id: nat, px: int)
    requires SideValid(side, s) && RestsAt(s, id, px)
    ensures Advances(s, Take(o, s, left).fills, Take(o, s, left).rest, id, px)
  {
    var m := Take(o, s, left);
    if m.fills == [] {
      assert m.rest == s;
    } else {
      var f := m.fills[0];
      var n := Take(o, s[1..], left - f.quantity);
      if f.quantity < s[0].order.remaining {
        assert m.fills == [f] && m.rest == [s[0].Reduced(f.quantity)] + s[1..];
        hide *;
        AdvancesPartly(s, f, id, px);
      } else if s[0].Is(id) {
        TakeValid(o, side, s[1..], left - f.quantity);
      } else {
        assert m.fills == [f] + n.fills && m.rest == n.rest;
        assert SideValid(side, s[1..]) && s[0].order.orderId !in IdsOf(s[1..]);
        TakeAdvances(o, side, s[1..], left - f.quantity, id, px);
        MakersAreResting(o, s[1..], left - f.quantity);
        hide *;
        AdvancesPast(s, f, n.fills, n.rest, id, px);
      }
    }
  }

  /** The first fill of an order comes exactly when everything ahead of it at its price is gone. */
  lemma {:induction false} FilledOnlyAtFront(o: Order, side: Side, s: seq<Entry>, left: nat, id: nat, px: int, k: nat)
    requires SideValid(side, s) && RestsAt(s, id, px)
    requires k < |Take(o, s, left).fills| && Take(o, s, left).fills[k].makerOrderId == id
    ensures DrainedFrom(Take(o, s, left).fills[..k], AheadIds(s, id, px)) == AheadQty(s, id, px)
  {
    var e := s[0];
    var q := Min(left, e.order.remaining);
    var fills, n := Take(o, s, left).fills, Take(o, s[1..], left - q);
    if k == 0 {
      assert fills[..0] == [];
    } else {
      MakersAreResting(o, s[1..], left - q);
      assert n.fills[k - 1] == fills[k] && n.fills[k - 1] in n.fills;
      assert !e.Is(id);
      FilledOnlyAtFront(o, side, s[1..], left - q, id, px, k - 1);
      DrainedHead(fills[..k], n.fills[..k - 1], s, id, px);
    }
  }

  lemma {:induction false} DrainedHead(fills: seq<Fill>, tail: seq<Fill>, s: seq<Entry>, id: nat, px: int)
    requires s != [] && !s[0].Is(id) && s[0].order.orderId !in IdsOf(s[1..])
    requires fills != [] && fills[1..] == tail
    requires fills[0].makerOrderId == s[0].order.orderId
    requires forall f :: f in tail ==> f.makerOrderId in IdsOf(s[1..])
    ensures DrainedFrom(fills, AheadIds(s, id, px))
            == (if s[0].px == px then fills[0].quantity else 0) + DrainedFrom(tail, AheadIds(s[1..], id, px))
  {
    AheadAmongIds(s[1..], id, px);
    DrainedFromAgrees(tail, AheadIds(s, id, px), AheadIds(s[1..], id, px));
  }

  /** Newcomers join behind: they do not change what is ahead. */
  lemma {:induction false} InsertBehind(side: Side, s: seq<Entry>, e: Entry, id: nat, px: int)
    requires SideValid(side, s) && RestsAt(s, id, px) && !e.Is(id)
    ensures RestsAt(Insert(side, s, e), id, px)
    ensures AheadQty(Insert(side, s, e), id, px) == AheadQty(s, id, px)
  {
    if Better(side, e.px, s[0].px) {
      assert ([e] + s)[1..] == s;
      RestsNoBetter(side, s, id, px);
    } else {
      var t := Insert(side, s[1..], e);
      assert ([s[0]] + t)[1..] == t;
      if !s[0].Is(id) { InsertBehind(side, s[1..], e, id, px); }
    }
  }

  lemma {:induction false} RestsNoBetter(side: Side, s: seq<Entry>, id: nat, px: int)
    requires SideValid(side, s) && RestsAt(s, id, px)
    ensures !Better(side, px, s[0].px)
  {
    if !s[0].Is(id) { RestsNoBetter(side, s[1..], id, px); }
  }

  /** An order that rests learns its true position. */
  lemma {:induction false} InsertPosition(side: Side, s: seq<Entry>, e: Entry)
    requires SideValid(side, s) && e.order.orderId !in IdsOf(s)
    ensures RestsAt(Insert(side, s, e), e.order.orderId, e.px)
    ensures AheadQty(Insert(side, s, e), e.order.orderId, e.px) == SizeAt(s, e.px)
  {
    if s == [] {
    } else if Better(side, e.px, s[0].px) {
      NoneAtBetterPrice(side, s, e.px);
    } else {
      InsertPosition(side, s[1..], e);
      var t := Insert(side, s[1..], e);
      assert ([s[0]] + t)[1..] == t;
    }
  }

  lemma {:induction false} NoneAtBetterPrice(side: Side, s: seq<Entry>, px: int)
    requires SideValid(side, s) && (s != [] ==> Better(side, px, s[0].px))
    ensures SizeAt(s, px) == 0
  {
    if s != [] { NoneAtBetterPrice(side, s[1..], px); }
  }

  lemma {:induction false} RemoveAdvances(side: Side, s: seq<Entry>, gone: nat, id: nat, px: int)
    requires SideValid(side, s) && RestsAt(s, id, px) && gone != id
    ensures RestsAt(Remove(s, gone), id, px)
    ensures AheadQty(Remove(s, gone), id, px)
            + (if gone in AheadIds(s, id, px) then RestingOf(s, gone) else 0) == AheadQty(s, id, px)
  {
    if s[0].Is(gone) {
      RemoveValid(side, s[1..], gone);
      NotResting(s[1..], gone);
      AheadAmongIds(s[1..], id, px);
    } else {
      var t := Remove(s[1..], gone);
      assert ([s[0]] + t)[1..] == t;
      if !s[0].Is(id) { RemoveAdvances(side, s[1..], gone, id, px); }
    }
  }

  /** One event: while the order still rests, its position shrinks by exactly what was filled
      or cancelled ahead of it, and never grows. */
  lemma {:induction false} PositionStep(b: Ladder, ev: Event, side: Side, id: nat, px: int)
    requires Valid(b) && (ev.New? ==> ev.o.id !in b.Ids())
    requires RestsAt(b.On(side), id, px) && id in IdsOf(Step(b, ev).book.On(side))
    ensures var s := Step(b, ev).book.On(side);
      && RestsAt(s, id, px)
      && AheadQty(s, id, px) + Drained(b, ev, side, id, px) == AheadQty(b.On(side), id, px)
  {
    AheadAmongIds(b.On(side), id, px);
    match ev
    case New(o) =>
      var opp := o.side.Opposite();
      var m := Take(o, b.On(opp), o.quantity);
      if o.side == side {
        MakersAreResting(o, b.On(opp), o.quantity);
        DrainedFromAgrees(m.fills, AheadIds(b.On(side), id, px), {});
        DrainedFromNone(m.fills);
        InsertBehind(side, b.On(side), Entry(o.limitPx, RestingOrder(o.id, m.left, o.isSynthetic)), id, px);
      } else {
        TakeAdvances(o, side, b.On(side), o.quantity, id, px);
      }
    case Pull(x) =>
      RemoveValid(side, b.On(side), x);
      if x in b.Ids() { RemoveAdvances(side, b.On(side), x, id, px); }
  }

  /** No event of the run cancels or fills the order. */
  predicate Untouched(b: Ladder, evs: seq<Event>, id: nat)
    decreases |evs|
  {
    evs != [] ==>
      && evs[0] != Pull(id)
      && (evs[0].New? ==> evs[0].o.id != id)
      && (forall f :: f in Step(b, evs[0]).fills ==> f.makerOrderId != id)
      && Untouched(Step(b, evs[0]).book, evs[1..], id)
  }

  lemma {:induction false} TakeKeepsUnfilled(o: Order, s: seq<Entry>, left: nat, id: nat)
    requires forall f :: f in Take(o, s, left).fills ==> f.makerOrderId != id
    requires id in IdsOf(s)
    ensures id in IdsOf(Take(o, s, left).rest)
  {
    if left == 0 || s == [] || !Acceptable(o, s[0].px) {
    } else {
      var q := Min(left, s[0].order.remaining);
      var m := Take(o, s, left);
      assert m.fills[0] in m.fills;
      if q < s[0].order.remaining {
        assert m.rest[1..] == s[1..];
      } else {
        assert m.fills[1..] == Take(o, s[1..], left - q).fills;
        TakeKeepsUnfilled(o, s[1..], left - q, id);
      }
    }
  }

  lemma {:induction false} UntouchedStep(b: Ladder, ev: Event, side: Side, id: nat)
    requires Valid(b) && (ev.New? ==> ev.o.id !in b.Ids())
    requires id in IdsOf(b.On(side)) && ev != Pull(id)
    requires forall f :: f in Step(b, ev).fills ==> f.makerOrderId != id
    ensures id in IdsOf(Step(b, ev).book.On(side))
  {
    match ev
    case New(o) =>
      var m := Take(o, b.On(o.side.Opposite()), o.quantity);
      if o.side == side {
        if m.left > 0 && o.isLimit {
          InsertValid(side, b.On(side), Entry(o.limitPx, RestingOrder(o.id, m.left, o.isSynthetic)));
        }
      } else {
        TakeKeepsUnfilled(o, b.On(side), o.quantity, id);
      }
    case Pull(x) =>
      RemoveValid(side, b.On(side), x);
  }

  /** Over a run that neither fills nor cancels it, an order keeps resting and its position
      shrinks by exactly the volume filled and cancelled ahead of it. */
  lemma {:induction false} PositionOverRun(b: Ladder, evs: seq<Event>, side: Side, id: nat, px: int)
    requires Valid(b) && FreshRun(b, evs) && Untouched(b, evs, id)
    requires RestsAt(b.On(side), id, px)
    ensures Valid(After(b, evs)) && RestsAt(After(b, evs).On(side), id, px)
    ensures AheadQty(After(b, evs).On(side), id, px) + RunDrained(b, evs, side, id, px)
            == AheadQty(b.On(side), id, px)
    decreases |evs|
  {
    if evs != [] {
      AheadAmongIds(b.On(side), id, px);
      StepValid(b, evs[0]);
      UntouchedStep(b, evs[0], side, id);
      PositionStep(b, evs[0], side, id, px);
      PositionOverRun(Step(b, evs[0]).book, evs[1..], side, id, px);
    }
  }

  /** Queue position honoured.  An order rests with queueAhead = q; a run follows that does not
      touch it; then a taker fills it, with its k-th fill the first to name it.  The volume
      filled or cancelled from the orders ahead of it, up to that very fill, is exactly q. */
  lemma {:induction false} FirstFillAfterQueueAhead(b: Ladder, o: Order, evs: seq<Event>, taker: Order, k: nat)
    requires Valid(b) && o.id !in b.Ids() && Submit(b, o).outcome.Rested?
    requires var b1 := Submit(b, o).book;
      FreshRun(b1, evs + [New(taker)]) && Untouched(b1, evs, o.id)
    requires var fills := Submit(After(Submit(b, o).book, evs), taker).fills;
      k < |fills| && fills[k].makerOrderId == o.id
    ensures var b1 := Submit(b, o).book; var b2 := After(b1, evs);
      Submit(b, o).outcome.queueAhead
      == RunDrained(b1, evs, o.side, o.id, o.limitPx)
         + DrainedFrom(Submit(b2, taker).fills[..k], AheadIds(b2.On(o.side), o.id, o.limitPx))
  {
    hide Take, Insert, SideValid, IdsOf, FreshRun, Untouched;
    hide AheadIds, AheadQty, RestsAt, DrainedFrom, RunDrained, After;
    var b1 := Submit(b, o).book;
    var m := Take(o, b.On(o.side.Opposite()), o.quantity);
    SubmitValid(b, o);
    InsertPosition(o.side, b.On(o.side), Entry(o.limitPx, RestingOrder(o.id, m.left, o.isSynthetic)));
    FreshPrefix(b1, evs, [New(taker)]);
    PositionOverRun(b1, evs, o.side, o.id, o.limitPx);
    var b2 := After(b1, evs);
    AheadAmongIds(b2.On(o.side), o.id, o.limitPx);
    MakersAreResting(taker, b2.On(taker.side.Opposite()), taker.quantity);
    assert Submit(b2, taker).fills[k] in Submit(b2, taker).fills;
    assert taker.side.Opposite() == o.side;
    FilledOnlyAtFront(taker, o.side, b2.On(o.side), taker.quantity, o.id, o.limitPx, k);
  }

  lemma {:induction false} FreshPrefix(b: Ladder, evs: seq<Event>, more: seq<Event>)
    requires FreshRun(b, evs + more)
    ensures FreshRun(b, evs) && FreshRun(After(b, evs), more)
    decreases |evs|
  {
    if evs == [] {
      assert evs + more == more;
    } else {
      assert (evs + more)[1..] == evs[1..] + more;
      FreshPrefix(Step(b, evs[0]).book, evs[1..], more);
    }
  }

  // ------------------------------------------------------------ an unfilled order leaves no trace

  /** The book with one order taken out. */
  function Without(b: Ladder, id: nat): Ladder {
    Ladder(Remove(b.bids, id), Remove(b.asks, id))
  }

  /** Matching passes over an order it does not fill as if it were not there. */
  lemma {:induction false} TakeIgnores(o: Order, side: Side, s: seq<Entry>, left: nat, id: nat)
    requires SideValid(side, s) && side == o.side.Opposite()
    requires forall f :: f in Take(o, s, left).fills ==> f.makerOrderId != id
    ensures var m, n := Take(o, s, left), Take(o, Remove(s, id), left);
      n.fills == m.fills && n.left == m.left && n.rest == Remove(m.rest, id)
  {
    RemoveValid(side, s, id);
    if left == 0 || s == [] || !Acceptable(o, s[0].px) {
    } else {
      var e := s[0];
      var q := Min(left, e.order.remaining);
      var m := Take(o, s, left);
      assert m.fills[0] in m.fills;
      assert Remove(s, id) == [e] + Remove(s[1..], id);
      assert Remove(s, id)[1..] == Remove(s[1..], id);
      if q < e.order.remaining {
        assert m.rest[1..] == s[1..];
      } else {
        assert m.fills[1..] == Take(o, s[1..], left - q).fills;
        TakeIgnores(o, side, s[1..], left - q, id);
      }
    }
  }

  lemma {:induction false} InsertRemoveCommute(side: Side, s: seq<Entry>, e: Entry, id: nat)
    requires SideValid(side, s) && !e.Is(id)
    ensures Remove(Insert(side, s, e), id) == Insert(side, Remove(s, id), e)
  {
    RemoveValid(side, s, id);
    if s == [] {
    } else if Better(side, e.px, s[0].px) {
      assert ([e] + s)[1..] == s;
    } else {
      InsertRemoveCommute(side, s[1..], e, id);
      var t := Insert(side, s[1..], e);
      assert ([s[0]] + t)[1..] == t;
      if !s[0].Is(id) {
        assert Remove(s, id)[1..] == Remove(s[1..], id);
      }
    }
  }

  lemma {:induction false} RemovesCommute(s: seq<Entry>, id: nat, x: nat)
    ensures Remove(Remove(s, x), id) == Remove(Remove(s, id), x)
  {
    if s != [] {
      RemovesCommute(s[1..], id, x);
      assert ([s[0]] + Remove(s[1..], x))[1..] == Remove(s[1..], x);
      assert ([s[0]] + Remove(s[1..], id))[1..] == Remove(s[1..], id);
    }
  }

  /** Inserting a new order and taking it out again is no change. */
  lemma {:induction false} RemoveUndoesInsert(side: Side, s: seq<Entry>, e: Entry)
    requires e.order.orderId !in IdsOf(s)
    ensures Remove(Insert(side, s, e), e.order.orderId) == s
  {
    RemoveValid(side, s, e.order.orderId);
    if s == [] || Better(side, e.px, s[0].px) {
      assert ([e] + s)[1..] == s;
    } else {
      RemoveUndoesInsert(side, s[1..], e);
      var t := Insert(side, s[1..], e);
      assert ([s[0]] + t)[1..] == t;
    }
  }

  /** Two outcomes that differ at most in the reported queue position. */
  predicate SameOutcome(x: Outcome, y: Outcome) {
    x == y || (x.Rested? && y.Rested?)
  }

  /** One event that neither names nor fills the order does the same with or without it. */
  lemma {:induction false} StepIgnores(b: Ladder, ev: Event, id: nat)
    requires Valid(b)
    requires ev != Pull(id) && (ev.New? ==> ev.o.id != id && ev.o.id !in b.Ids())
    requires forall f :: f in Step(b, ev).fills ==> f.makerOrderId != id
    ensures var r, r' := Step(b, ev), Step(Without(b, id), ev);
      && r'.book == Without(r.book, id)
      && r'.fills == r.fills
      && SameOutcome(r.outcome, r'.outcome)
  {
    hide Take, Insert, Remove, SideValid, IdsOf;
    match ev
    case New(o) =>
      var m := Take(o, b.On(o.side.Opposite()), o.quantity);
      assert o.side.Opposite() == Buy || o.side.Opposite() == Sell;
      TakeIgnores(o, o.side.Opposite(), b.On(o.side.Opposite()), o.quantity, id);
      var e := Entry(o.limitPx, RestingOrder(o.id, m.left, o.isSynthetic));
      InsertRemoveCommute(o.side, b.On(o.side), e, id);
    case Pull(x) =>
      RemovesCommute(b.bids, id, x);
      RemovesCommute(b.asks, id, x);
      RemoveValid(Buy, b.bids, id);
      RemoveValid(Sell, b.asks, id);
  }

  lemma {:induction false} RunIgnores(b: Ladder, evs: seq<Event>, id: nat)
    requires Valid(b) && FreshRun(b, evs) && Untouched(b, evs, id)
    ensures After(Without(b, id), evs) == Without(After(b, evs), id)
    ensures RunFills(Without(b, id), evs) == RunFills(b, evs)
    decreases |evs|
  {
    if evs != [] {
      StepValid(b, evs[0]);
      StepIgnores(b, evs[0], id);
      RunIgnores(Step(b, evs[0]).book, evs[1..], id);
    }
  }

  lemma {:induction false} AfterAppend(b: Ladder, evs: seq<Event>, more: seq<Event>)
    ensures After(b, evs + more) == After(After(b, evs), more)
    ensures RunFills(b, evs + more) == RunFills(b, evs) + RunFills(After(b, evs), more)
    decreases |evs|
  {
    if evs == [] {
      assert evs + more == more;
    } else {
      assert (evs + more)[1..] == evs[1..] + more;
      AfterAppend(Step(b, evs[0]).book, evs[1..], more);
    }
  }

  /** Cancel undoes a pure rest.  Whatever happens in between, crossing orders included, an
      order that rested without a fill and was never filled is gone without a trace once it
      is cancelled: the book and every fill are those of the run that never had it. */
  lemma {:induction false} CancelledUnfilledLeavesNoTrace(b: Ladder, o: Order, evs: seq<Event>)
    requires Valid(b) && o.id !in b.Ids()
    requires Submit(b, o).outcome.Rested? && Submit(b, o).fills == []
    requires FreshRun(Submit(b, o).book, evs) && Untouched(Submit(b, o).book, evs, o.id)
    ensures After(b, [New(o)] + evs + [Pull(o.id)]) == After(b, evs)
    ensures RunFills(b, [New(o)] + evs + [Pull(o.id)]) == RunFills(b, evs)
  {
    var b1 := Submit(b, o).book;
    SubmitValid(b, o);
    PureRestUndone(b, o);
    RunIgnores(b1, evs, o.id);
    PullIsWithout(After(b1, evs), o.id);
    AfterAppend(b1, evs, [Pull(o.id)]);
    assert [New(o)] + evs + [Pull(o.id)] == [New(o)] + (evs + [Pull(o.id)]);
    assert ([New(o)] + (evs + [Pull(o.id)]))[1..] == evs + [Pull(o.id)];
  }

  lemma {:induction false} PureRestUndone(b: Ladder, o: Order)
    requires Valid(b) && o.id !in b.Ids()
    requires Submit(b, o).outcome.Rested? && Submit(b, o).fills == []
    ensures Without(Submit(b, o).book, o.id) == b
  {
    var opp := b.On(o.side.Opposite());
    var m := Take(o, opp, o.quantity);
    assert m.rest == opp;
    RemoveUndoesInsert(o.side, b.On(o.side), Entry(o.limitPx, RestingOrder(o.id, m.left, o.isSynthetic)));
    RemoveValid(o.side.Opposite(), opp, o.id);
  }

  lemma {:induction false} PullIsWithout(b: Ladder, id: nat)
    ensures After(b, [Pull(id)]) == Without(b, id) && RunFills(b, [Pull(id)]) == []
  {
    assert [Pull(id)][1..] == [];
    if id !in b.Ids() {
      RemoveValid(Buy, b.bids, id);
      RemoveValid(Sell, b.asks, id);
    }
  }
}
