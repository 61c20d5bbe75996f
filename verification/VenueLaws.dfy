/** What commands and rounds do, in the values of the wire: action and type bytes, side bytes, ids
    and prices. */
module VenueLaws {
  import opened FlatBook
  import opened BookRuns
  import opened Exchange
  import opened Reports
  import opened ReportLaws

  // ------------------------------------------------------------ one submission, by id

  lemma {:induction false} TakersOnly(o: Order, opp: seq<Entry>, left: nat)
    ensures forall f :: f in Take(o, opp, left).fills ==> f.takerOrderId == o.id && f.takerOriginTs == o.originTs
  {
    if left == 0 || opp == [] || !Acceptable(o, opp[0].px) {
    } else {
      TakersOnly(o, opp[1..], left - Min(left, opp[0].order.remaining));
    }
  }

  /** A fresh order: every fill is its own, and what is not filled rests on its own side, if it has a
      limit, or is turned away.  Nobody else on its side is touched. */
  ghost predicate Settles(id: nat, buys: bool, isLimit: bool, px: int, quantity: nat,
                          before: Ladder, fills: seq<Fill>, book: Ladder)
  {
    && (forall f :: f in fills ==> f.takerOrderId == id)
    && (isLimit ==> TakenBy(fills, id) + Resting(book, id) == quantity)
    && (!isLimit ==> TakenBy(fills, id) <= quantity && Resting(book, id) == 0)
    && RestingOf(if buys then book.asks else book.bids, id) == 0
    && (isLimit && buys ==> forall f :: f in fills ==> f.priceTicks <= px)
    && (isLimit && !buys ==> forall f :: f in fills ==> f.priceTicks >= px)
    && (Resting(book, id) > 0 ==> RestsAt(if buys then book.bids else book.asks, id, px))
    && (buys ==> SameOthers(before.bids, book.bids, id))
    && (!buys ==> SameOthers(before.asks, book.asks, id))
  }

  ghost predicate SameOthers(s: seq<Entry>, t: seq<Entry>, id: nat) {
    forall x :: x != id ==> RestingOf(s, x) == RestingOf(t, x)
  }

  lemma {:induction false} FreshSettles(b: Ladder, o: Order)
    requires Valid(b) && o.id !in b.Ids()
    ensures Settles(o.id, o.side == Buy, o.isLimit, o.limitPx, o.quantity, b, Submit(b, o).fills, Submit(b, o).book)
  {
    hide Take, SideValid, IdsOf, Insert, Acceptable, IsGreedyPrefix, SameOthers;
    var opp := o.side.Opposite();
    assert opp == Buy || opp == Sell;
    var m := Take(o, b.On(opp), o.quantity);
    var r := Submit(b, o);
    var e := Entry(o.limitPx, RestingOrder(o.id, m.left, o.isSynthetic));
    SubmitHonours(b, o);
    SubmitConserves(b, o, o.id);
    NotRestingAnywhere(b, o.id);
    TakeConserves(o, b.On(opp), o.quantity, o.id);
    TakeVolume(o, b.On(opp), o.quantity);
    TakersOnly(o, b.On(opp), o.quantity);
    InsertPosition(o.side, b.On(o.side), e);
    NoneMade(o, opp, b.On(opp), o.quantity);
    OthersKept(o.side, b.On(o.side), e);
  }

  lemma {:induction false} OthersKept(side: Side, s: seq<Entry>, e: Entry)
    ensures SameOthers(s, s, e.order.orderId)
    ensures SameOthers(s, Insert(side, s, e), e.order.orderId)
  {
    forall x: nat | x != e.order.orderId ensures RestingOf(s, x) == RestingOf(Insert(side, s, e), x) {
      InsertConserves(side, s, e, x);
    }
  }

  lemma {:induction false} NoneMade(o: Order, side: Side, s: seq<Entry>, left: nat)
    requires o.id !in IdsOf(s)
    ensures MadeBy(Take(o, s, left).fills, o.id) == 0 && RestingOf(Take(o, s, left).rest, o.id) == 0
  {
    TakeConserves(o, s, left, o.id);
    NotResting(s, o.id);
  }

  lemma {:induction false} SubmitOrigin(b: Ladder, o: Order)
    ensures forall f :: f in Submit(b, o).fills ==> f.takerOriginTs == o.originTs
  {
    TakersOnly(o, b.On(o.side.Opposite()), o.quantity);
  }

  lemma {:induction false} OthersConserved(b: Ladder, o: Order, id: nat)
    requires id != o.id
    ensures MadeBy(Submit(b, o).fills, id) + Resting(Submit(b, o).book, id) == Resting(b, id)
  {
    SubmitConserves(b, o, id);
    TakeConserves(o, b.On(o.side.Opposite()), o.quantity, id);
  }

  lemma {:induction false} CancelSettles(b: Ladder, x: nat, id: nat)
    ensures Resting(Cancel(b, x).book, id) == if id == x then 0 else Resting(b, id)
  {
    RemoveConserves(b.bids, x, id);
    RemoveConserves(b.asks, x, id);
    NotRestingAnywhere(b, x);
  }

  /** What rested under the id before makes no difference to the others. */
  lemma {:induction false} WithoutSettles(b: Ladder, id: nat, buys: bool, isLimit: bool, px: int, quantity: nat,
                                          fills: seq<Fill>, book: Ladder)
    requires Settles(id, buys, isLimit, px, quantity, Cancel(b, id).book, fills, book)
    ensures Settles(id, buys, isLimit, px, quantity, b, fills, book)
  {
    var c := Cancel(b, id).book;
    forall x: nat | x != id ensures RestingOf(c.bids, x) == RestingOf(b.bids, x) { RemoveConserves(b.bids, id, x); }
    forall x: nat | x != id ensures RestingOf(c.asks, x) == RestingOf(b.asks, x) { RemoveConserves(b.asks, id, x); }
    hide Cancel, RestsAt;
    assert buys ==> SameOthers(b.bids, book.bids, id);
    assert !buys ==> SameOthers(b.asks, book.asks, id);
  }

  // ------------------------------------------------------------ commands

  /** Action 1 takes the order off the book and fills nothing; any other action ends with the order
      settled afresh, whatever rested under its id before: side byte 0 buys, type byte 1 has a limit.
      Every other order loses exactly what it made. */
  lemma {:induction false} CommandMeans(v: Venue, used: set<nat>, c: Command, id: nat)
    requires Invariant(v, used) && Issuable(c, used)
    ensures var fills, book := RunFills(v.book, VenueEvents(v, Cmd(c))), VenueStep(v, Cmd(c)).book;
      && (c.action == 1 ==> fills == [] && Resting(book, c.orderId) == 0)
      && (c.action != 1 ==>
            && Settles(c.orderId, c.side == 0, c.orderType == 1, c.priceTicks, c.quantity, v.book, fills, book)
            && forall f :: f in fills ==> f.takerOriginTs == c.originTs)
      && (id != c.orderId ==> MadeBy(fills, id) + Resting(book, id) == Resting(v.book, id))
  {
    hide Settles, Submit;
    CommandUnfolds(v.book, c);
    CommandKeepsInvariant(v, used, c);
    if c.action == 1 {
      CancelSettles(v.book, c.orderId, id);
      CancelSettles(v.book, c.orderId, c.orderId);
    } else {
      var b := if c.action == 2 then Cancel(v.book, c.orderId).book else v.book;
      CancelValid(v.book, c.orderId);
      FreshSettles(b, c.Order());
      SubmitOrigin(b, c.Order());
      if c.action == 2 {
        WithoutSettles(v.book, c.orderId, c.side == 0, c.orderType == 1, c.priceTicks, c.quantity,
                       Submit(b, c.Order()).fills, Submit(b, c.Order()).book);
      }
      if id != c.orderId {
        OthersConserved(b, c.Order(), id);
        CancelSettles(v.book, c.orderId, id);
      }
    }
  }

  /** The k-th report of a command says what is still wanted once its fill and those before it are
      counted, never a price beyond the limit, and is terminal exactly when nothing is wanted. */
  lemma {:induction false} CommandCountsDown(v: Venue, used: set<nat>, c: Command, feeBps: real, k: nat)
    requires Invariant(v, used) && Issuable(c, used)
    requires k < |StepReports(v, Cmd(c), feeBps)|
    ensures var reps := StepReports(v, Cmd(c), feeBps);
      && reps[k].orderId == c.orderId
      && reps[k].remaining + Told(reps[..k + 1], c.orderId) == c.quantity
      && reps[k].status == (if reps[k].remaining == 0 then 2 else 1)
      && (c.orderType == 1 && c.side == 0 ==> reps[k].executedPrice <= c.priceTicks)
      && (c.orderType == 1 && c.side != 0 ==> reps[k].executedPrice >= c.priceTicks)
  {
    hide Take, Invariant, SubmitTold;
    var b := if c.action == 2 then Cancel(v.book, c.orderId).book else v.book;
    CommandUnfolds(v.book, c);
    CommandKeepsInvariant(v, used, c);
    InvariantValid(v, used);
    CancelValid(v.book, c.orderId);
    assert StepReports(v, Cmd(c), feeBps) == TakerReports(Submit(b, c.Order()).fills, feeBps) by {
      assert c.action == 1 ==> StepReports(v, Cmd(c), feeBps) == [];
    }
    hide StepReports, Submit, Valid;
    SubmitCountsDown(b, c.Order(), feeBps, k);
    ToldUnfolds(c.Order(), TakerReports(Submit(b, c.Order()).fills, feeBps), k);
  }

  /** The k-th report of a submission. */
  ghost predicate SubmitTold(o: Order, reps: seq<Report>, k: nat) {
    && k < |reps| && reps[k].orderId == o.id
    && reps[k].remaining + Told(reps[..k + 1], o.id) == o.quantity
    && reps[k].status == (if reps[k].remaining == 0 then 2 else 1)
    && (o.isLimit && o.side == Buy ==> reps[k].executedPrice <= o.limitPx)
    && (o.isLimit && o.side == Sell ==> reps[k].executedPrice >= o.limitPx)
  }

  lemma {:induction false} ToldUnfolds(o: Order, reps: seq<Report>, k: nat)
    requires SubmitTold(o, reps, k)
    ensures k < |reps| && reps[k].orderId == o.id
    ensures reps[k].remaining + Told(reps[..k + 1], o.id) == o.quantity
    ensures reps[k].status == (if reps[k].remaining == 0 then 2 else 1)
    ensures o.isLimit && o.side == Buy ==> reps[k].executedPrice <= o.limitPx
    ensures o.isLimit && o.side == Sell ==> reps[k].executedPrice >= o.limitPx
  {
  }

  lemma {:induction false} SubmitCountsDown(b: Ladder, o: Order, feeBps: real, k: nat)
    requires Valid(b) && !o.isSynthetic && k < |TakerReports(Submit(b, o).fills, feeBps)|
    ensures SubmitTold(o, TakerReports(Submit(b, o).fills, feeBps), k)
  {
    hide Take, Acceptable, Commission, Valid, IsGreedyPrefix, Told, Volume;
    var opp := b.On(o.side.Opposite());
    var fills := Take(o, opp, o.quantity).fills;
    SubmitHonours(b, o);
    TakersOnly(o, opp, o.quantity);
    OwnTaker(o, opp, o.quantity);
    PlainReports(fills, feeBps, o.id);
    TakeRunningRemainder(o, opp, o.quantity, k);
    ToldPrefix(fills, feeBps, o.id, k + 1);
    assert fills[k] in fills;
  }

  lemma {:induction false} InvariantValid(v: Venue, used: set<nat>)
    requires Invariant(v, used)
    ensures Valid(v.book)
  {
  }

  lemma {:induction false} OwnTaker(o: Order, opp: seq<Entry>, left: nat)
    ensures forall f :: f in Take(o, opp, left).fills ==> f.takerIsSynthetic == o.isSynthetic
  {
    if left == 0 || opp == [] || !Acceptable(o, opp[0].px) {
    } else {
      OwnTaker(o, opp[1..], left - Min(left, opp[0].order.remaining));
    }
  }

  ghost predicate AllOf(fills: seq<Fill>, id: nat) {
    forall f :: f in fills ==> f.takerOrderId == id && !f.takerIsSynthetic
  }

  lemma {:induction false} PlainReports(fills: seq<Fill>, feeBps: real, id: nat)
    requires AllOf(fills, id)
    ensures |TakerReports(fills, feeBps)| == |fills|
    ensures forall k :: 0 <= k < |fills| ==> TakerReports(fills, feeBps)[k] == TakerReport(fills[k], feeBps)
  {
    if fills != [] {
      assert fills[0] in fills && forall x :: x in fills[1..] ==> x in fills;
      PlainReports(fills[1..], feeBps, id);
      hide TakerReport;
      var reps, rest := TakerReports(fills, feeBps), TakerReports(fills[1..], feeBps);
      assert reps == [TakerReport(fills[0], feeBps)] + rest;
      forall k | 0 <= k < |fills| ensures reps[k] == TakerReport(fills[k], feeBps) {
        if k > 0 { assert reps[k] == rest[k - 1] && fills[k] == fills[1..][k - 1]; }
      }
    }
  }

  lemma {:induction false} ToldPrefix(fills: seq<Fill>, feeBps: real, id: nat, n: nat)
    requires AllOf(fills, id) && n <= |fills|
    ensures |TakerReports(fills, feeBps)| == |fills|
    ensures Told(TakerReports(fills, feeBps)[..n], id) == Volume(fills[..n])
  {
    PlainReports(fills, feeBps, id);
    if n > 0 {
      var reps := TakerReports(fills, feeBps);
      ToldPrefix(fills, feeBps, id, n - 1);
      assert reps[..n] == reps[..n - 1] + [reps[n - 1]];
      assert fills[..n] == fills[..n - 1] + [fills[n - 1]];
      ToldAppend(reps[..n - 1], [reps[n - 1]], id);
      VolumeAppend(fills[..n - 1], fills[n - 1]);
      assert [reps[n - 1]][1..] == [];
      assert fills[n - 1] in fills;
    }
  }

  lemma {:induction false} VolumeAppend(fills: seq<Fill>, f: Fill)
    ensures Volume(fills + [f]) == Volume(fills) + f.quantity
  {
    if fills == [] {
      assert [f][1..] == [] && fills + [f] == [f];
    } else {
      assert (fills + [f])[1..] == fills[1..] + [f];
      VolumeAppend(fills[1..], f);
    }
  }

  // ------------------------------------------------------------ participant rounds

  /** The bid of a round is a buy at its price and the ask a sale at its own, under the next two
      synthetic ids, which join the live list. */
  lemma {:induction false} QuotesMean(v: Venue, used: set<nat>, r: Round)
    requires Invariant(v, used) && v.next + 2 <= SYNTHETIC_BIT
    ensures var w, bid, ask := AfterQuotes(v, r), SYNTHETIC_BIT + v.next, SYNTHETIC_BIT + v.next + 1;
      && w.live == v.live + [bid, ask] && w.next == v.next + 2
      && exists between, f, g ::
           && RunFills(v.book, QuoteEvents(v, r)) == f + g
           && Settles(bid, true, true, r.bidPx, r.bidSz, v.book, f, between)
           && Settles(ask, false, true, r.askPx, r.askSz, between, g, w.book)
  {
    hide Settles, Submit;
    var bid, ask := BidOf(v, r), AskOf(v, r);
    QuotesUnfold(v, r, []);
    QuotesKeep(v, used, r);
    QuoteKeeps(v, used, bid);
    FreshSettles(v.book, bid);
    var between := Submit(v.book, bid).book;
    FreshSettles(between, ask);
    var f, g := Submit(v.book, bid).fills, Submit(between, ask).fills;
    assert [] + RunFills(v.book, QuoteEvents(v, r)) == RunFills(v.book, QuoteEvents(v, r));
    assert [] + f + g == f + g;
    assert Settles(bid.id, true, true, r.bidPx, r.bidSz, v.book, f, between);
    assert Settles(ask.id, false, true, r.askPx, r.askSz, between, g, AfterQuotes(v, r).book);
  }

  /** A cancel of a round takes the live order at the drawn place off the book and off the list, and
      touches no other order. */
  lemma {:induction false} CancelMeans(v: Venue, used: set<nat>, r: Round, id: nat)
    requires Invariant(v, used)
    ensures var w := AfterCancel(v, r);
      if r.cancel.Some? && v.live != [] then
        var target := v.live[r.cancel.value % |v.live|];
        && Resting(w.book, id) == (if id == target then 0 else Resting(v.book, id))
        && (id in w.live <==> id in v.live && id != target)
      else w == v
  {
    if r.cancel.Some? && v.live != [] {
      var k := r.cancel.value % |v.live|;
      AfterOne(v.book, Pull(v.live[k]));
      CancelSettles(v.book, v.live[k], id);
      SwapRemoveDropsOne(v.live, k);
    }
  }

  /** The taker of a round takes up to its size from the other side and never rests; it uses up one
      synthetic id and leaves the live list alone. */
  lemma {:induction false} TakerMeans(v: Venue, used: set<nat>, r: Round)
    requires Invariant(v, used) && v.next < SYNTHETIC_BIT
    ensures var w, fills := AfterTaker(v, r), RunFills(v.book, TakerEvents(v, r));
      && w.live == v.live
      && if r.cross.Some? then
           && w.next == v.next + 1
           && Settles(SYNTHETIC_BIT + v.next, r.cross.value.0 == Buy, false, 0, r.cross.value.1, v.book, fills, w.book)
         else fills == [] && w.book == v.book && w.next == v.next
  {
    hide Settles, Submit;
    if r.cross.Some? {
      var o := TakerOf(v, r);
      TakerKeeps(v, used, r);
      AfterOne(v.book, New(o));
      FreshOne(v.book, New(o));
      FreshSettles(v.book, o);
    }
  }
}
