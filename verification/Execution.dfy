/** The execution stage: position and cash rebuilt from reports by correlating order ids,
    and its agreement with what the book really did. */
module Execution {
  import opened Exchange
  import opened Reports

  /** What the stage receives, in the order it processes it. */
  datatype Message = OrderMsg(c: Command) | ReportMsg(r: Report)

  /** Context per order id (origin time, side byte) and the running totals. */
  datatype Account = Account(ctx: map<nat, (nat, nat)>, position: real, cash: real, fills: nat, completed: nat)

  const OPENING := Account(map[], 0.0, 0.0, 0, 0)

  predicate Books(r: Report) {
    r.status == 1 || r.status == 2
  }

  function PositionOf(r: Report, side: nat): real {
    PositionFlow(r.executedQuantity, side == 0)
  }

  function CashOf(r: Report, side: nat): real {
    CashFlow(r.executedPrice, r.executedQuantity, r.commission, side == 0)
  }

  /** What a report is worth in whole units, prices and quantities coming in hundred-millionths: the
      lots bought, sales counting as negative. */
  function Lots(r: Report, side: nat): int {
    var q: int := r.executedQuantity;
    if side == 0 then q else -q
  }

  /** The proceeds of a report, a price unit times a quantity unit at a time: what was sold for less
      what was bought for, less the commission. */
  function Proceeds(r: Report, side: nat): int {
    (if side == 0 then -(r.executedPrice * r.executedQuantity) else r.executedPrice * r.executedQuantity)
    - 100_000_000 * r.commission
  }

  /** A real amount of lots, or of proceeds, is a whole number of units. */
  predicate CountsLots(amount: real, n: int) {
    amount * 100_000_000.0 == n as real
  }

  predicate CountsProceeds(amount: real, n: int) {
    amount * 10_000_000_000_000_000.0 == n as real
  }

  lemma {:induction false} FlowsCount(r: Report, side: nat)
    ensures CountsLots(PositionOf(r, side), Lots(r, side))
    ensures CountsProceeds(CashOf(r, side), Proceeds(r, side))
  {
    GrossCounts(r.executedPrice, r.executedQuantity);
  }

  lemma {:induction false} GrossCounts(price: int, quantity: int)
    ensures Units(price) * Units(quantity) * 10_000_000_000_000_000.0 == (price * quantity) as real
  {
    var p, q := price as real, quantity as real;
    assert (price * quantity) as real == p * q;
    assert Units(price) * 100_000_000.0 == p && Units(quantity) * 100_000_000.0 == q;
    assert (Units(price) * 100_000_000.0) * (Units(quantity) * 100_000_000.0)
      == Units(price) * Units(quantity) * 10_000_000_000_000_000.0;
  }

  function Apply(a: Account, m: Message): Account {
    match m
    case OrderMsg(c) => a.(ctx := a.ctx[c.orderId := (c.originTs, c.side)])
    case ReportMsg(r) =>
      if !Books(r) || r.orderId !in a.ctx then a
      else
        var side := a.ctx[r.orderId].1;
        Account(if r.status == 2 then a.ctx - {r.orderId} else a.ctx,
                a.position + PositionOf(r, side), a.cash + CashOf(r, side),
                a.fills + 1, a.completed + if r.status == 2 then 1 else 0)
  }

  function ApplyAll(a: Account, msgs: seq<Message>): Account
    decreases |msgs|
  {
    if msgs == [] then a else ApplyAll(Apply(a, msgs[0]), msgs[1..])
  }

  class Stage {
    var orderCtx: map<nat, (nat, nat)>
    var position: real
    var cash: real
    var fills: nat
    var completedOrders: nat

    constructor ()
      ensures View() == OPENING
    {
      orderCtx, position, cash, fills, completedOrders := map[], 0.0, 0.0, 0, 0;
    }

    ghost function View(): Account
      reads this
    {
      Account(orderCtx, position, cash, fills, completedOrders)
    }

    method OnOrder(c: Command)
      modifies this
      ensures View() == Apply(old(View()), OrderMsg(c))
    {
      orderCtx := orderCtx[c.orderId := (c.originTs, c.side)];
    }

    method OnReport(r: Report)
      modifies this
      ensures View() == Apply(old(View()), ReportMsg(r))
      ensures r.status !in {1, 2} || r.orderId !in old(orderCtx) ==> View() == old(View())
      ensures r.status in {1, 2} && r.orderId in old(orderCtx) ==>
                && CountsLots(position - old(position), Lots(r, old(orderCtx)[r.orderId].1))
                && CountsProceeds(cash - old(cash), Proceeds(r, old(orderCtx)[r.orderId].1))
                && fills == old(fills) + 1
                && orderCtx == (if r.status == 2 then old(orderCtx) - {r.orderId} else old(orderCtx))
                && completedOrders == old(completedOrders) + if r.status == 2 then 1 else 0
    {
      if r.orderId in orderCtx { FlowsCount(r, orderCtx[r.orderId].1); }
      hide CountsLots, CountsProceeds, Lots, Proceeds;
      if r.status != 1 && r.status != 2 {
        return;
      }
      if r.orderId !in orderCtx {
        return;
      }
      var (originTs, side) := orderCtx[r.orderId];
      var price := r.executedPrice as real / SCALE;
      var qty := r.executedQuantity as real / SCALE;
      var fee := r.commission as real / SCALE;
      if side == 0 {
        position := position + qty;
        cash := cash - (price * qty + fee);
      } else {
        position := position - qty;
        cash := cash + (price * qty - fee);
      }
      fills := fills + 1;
      if r.status == 2 {
        orderCtx := orderCtx - {r.orderId};
        completedOrders := completedOrders + 1;
      }
    }

    method Drain(msgs: seq<Message>)
      modifies this
      ensures View() == ApplyAll(old(View()), msgs)
    {
      for i := 0 to |msgs|
        invariant ApplyAll(View(), msgs[i..]) == ApplyAll(old(View()), msgs)
      {
        assert msgs[i..][1..] == msgs[i + 1..];
        match msgs[i]
        case OrderMsg(c) => OnOrder(c);
        case ReportMsg(r) => OnReport(r);
      }
    }
  }

  // ------------------------------------------------------------ accounting over one message sequence

  /** Each order id arrives once, each report after its order, none after a terminal one. */
  predicate Causal(msgs: seq<Message>, seen: map<nat, (nat, nat)>, done: set<nat>)
    decreases |msgs|
  {
    msgs != [] ==>
      match msgs[0]
      case OrderMsg(c) =>
        c.orderId !in seen && Causal(msgs[1..], seen[c.orderId := (c.originTs, c.side)], done)
      case ReportMsg(r) =>
        && Books(r) && r.orderId in seen && r.orderId !in done
        && Causal(msgs[1..], seen, if r.status == 2 then done + {r.orderId} else done)
  }

  function OrdersIn(msgs: seq<Message>): seq<Command> {
    if msgs == [] then [] else (if msgs[0].OrderMsg? then [msgs[0].c] else []) + OrdersIn(msgs[1..])
  }

  function ReportsIn(msgs: seq<Message>): seq<Report> {
    if msgs == [] then [] else (if msgs[0].ReportMsg? then [msgs[0].r] else []) + ReportsIn(msgs[1..])
  }

  /** The contexts of a list of commands, on top of those already known. */
  function Contexts(cmds: seq<Command>, seen: map<nat, (nat, nat)>): map<nat, (nat, nat)>
    decreases |cmds|
  {
    if cmds == [] then seen
    else Contexts(cmds[1..], seen[cmds[0].orderId := (cmds[0].originTs, cmds[0].side)])
  }

  /** The ids of terminal reports. */
  function Done(reps: seq<Report>): set<nat> {
    if reps == [] then {} else (if reps[0].status == 2 then {reps[0].orderId} else {}) + Done(reps[1..])
  }

  function Terminals(reps: seq<Report>): nat {
    if reps == [] then 0 else (if reps[0].status == 2 then 1 else 0) + Terminals(reps[1..])
  }

  function SideIn(ctx: map<nat, (nat, nat)>, id: nat): nat {
    if id in ctx then ctx[id].1 else 0
  }

  /** Lots bought less lots sold over some reports, each signed by the side of its order. */
  function LotSum(reps: seq<Report>, ctx: map<nat, (nat, nat)>): int {
    if reps == [] then 0 else Lots(reps[0], SideIn(ctx, reps[0].orderId)) + LotSum(reps[1..], ctx)
  }

  function ProceedSum(reps: seq<Report>, ctx: map<nat, (nat, nat)>): int {
    if reps == [] then 0 else Proceeds(reps[0], SideIn(ctx, reps[0].orderId)) + ProceedSum(reps[1..], ctx)
  }

  lemma {:induction false} ContextsKeep(msgs: seq<Message>, seen: map<nat, (nat, nat)>, done: set<nat>, id: nat)
    requires Causal(msgs, seen, done) && id in seen
    ensures var all := Contexts(OrdersIn(msgs), seen); id in all && all[id] == seen[id]
    decreases |msgs|
  {
    if msgs != [] {
      match msgs[0]
      case OrderMsg(c) =>
        assert OrdersIn(msgs)[1..] == OrdersIn(msgs[1..]);
        ContextsKeep(msgs[1..], seen[c.orderId := (c.originTs, c.side)], done, id);
      case ReportMsg(r) =>
        assert OrdersIn(msgs) == OrdersIn(msgs[1..]);
        ContextsKeep(msgs[1..], seen, if r.status == 2 then done + {r.orderId} else done, id);
    }
  }

  /** From account `a`, the reports `reps` were booked exactly, giving `z`. */
  ghost predicate Exact(a: Account, reps: seq<Report>, all: map<nat, (nat, nat)>, done: set<nat>, z: Account) {
    && z.ctx == all - (done + Done(reps))
    && CountsLots(z.position - a.position, LotSum(reps, all))
    && CountsProceeds(z.cash - a.cash, ProceedSum(reps, all))
    && z.fills == a.fills + |reps|
    && z.completed == a.completed + Terminals(reps)
  }

  lemma {:induction false} ExactReport(a: Account, r: Report, reps: seq<Report>, all: map<nat, (nat, nat)>,
                                      done: set<nat>, z: Account)
    requires Books(r) && r.orderId in a.ctx && r.orderId in all && all[r.orderId] == a.ctx[r.orderId]
    requires Exact(Apply(a, ReportMsg(r)), reps, all, if r.status == 2 then done + {r.orderId} else done, z)
    ensures Exact(a, [r] + reps, all, done, z)
  {
    FlowsCount(r, a.ctx[r.orderId].1);
    hide PositionOf, CashOf, Lots, Proceeds;
    assert ([r] + reps)[1..] == reps;
    assert done + Done([r] + reps) == (if r.status == 2 then done + {r.orderId} else done) + Done(reps);
  }

  lemma {:induction false} NothingBooked(a: Account, all: map<nat, (nat, nat)>, done: set<nat>)
    requires a.ctx == all - done
    ensures Exact(a, [], all, done, a)
  {
    assert done + {} == done;
  }

  lemma {:induction false} OrderBooksNothing(a: Account, c: Command, reps: seq<Report>, all: map<nat, (nat, nat)>,
                                             done: set<nat>, z: Account)
    requires Exact(Apply(a, OrderMsg(c)), reps, all, done, z)
    ensures Exact(a, reps, all, done, z)
  {
  }

  /** At every point of a causal sequence no report is lost, and the account is exact: the kept
      contexts are those of the orders seen without a booked terminal fill, and position, cash
      and counts are the sums over the reports, in whole units, each signed by the side of its
      order. */
  lemma {:induction false} AccountIsExact(a: Account, msgs: seq<Message>, seen: map<nat, (nat, nat)>, done: set<nat>)
    requires a.ctx == seen - done && done <= seen.Keys && Causal(msgs, seen, done)
    ensures Exact(a, ReportsIn(msgs), Contexts(OrdersIn(msgs), seen), done, ApplyAll(a, msgs))
    decreases |msgs|
  {
    hide Exact, PositionOf, CashOf;
    if msgs == [] {
      NothingBooked(a, seen, done);
    } else {
      var a' := Apply(a, msgs[0]);
      match msgs[0]
      case OrderMsg(c) =>
        assert OrdersIn(msgs)[1..] == OrdersIn(msgs[1..]);
        assert ReportsIn(msgs) == ReportsIn(msgs[1..]);
        AccountIsExact(a', msgs[1..], seen[c.orderId := (c.originTs, c.side)], done);
        OrderBooksNothing(a, c, ReportsIn(msgs), Contexts(OrdersIn(msgs), seen), done, ApplyAll(a, msgs));
      case ReportMsg(r) =>
        var done' := if r.status == 2 then done + {r.orderId} else done;
        assert ReportsIn(msgs) == [r] + ReportsIn(msgs[1..]);
        assert OrdersIn(msgs) == OrdersIn(msgs[1..]);
        ContextsKeep(msgs, seen, done, r.orderId);
        assert a'.ctx == seen - done';
        AccountIsExact(a', msgs[1..], seen, done');
        ExactReport(a, r, ReportsIn(msgs[1..]), Contexts(OrdersIn(msgs), seen), done, ApplyAll(a, msgs));
    }
  }

  // ------------------------------------------------------------ accounting over any message sequence

  predicate Opens(m: Message, id: nat) {
    m.OrderMsg? && m.c.orderId == id
  }

  /** A terminal report of the id. */
  predicate Closes(m: Message, id: nat) {
    m.ReportMsg? && m.r.orderId == id && m.r.status == 2
  }

  /** Message j is the last command for the id, and no terminal report came after it. */
  ghost predicate Stands(msgs: seq<Message>, j: nat, id: nat) {
    && j < |msgs| && Opens(msgs[j], id)
    && forall k :: j < k < |msgs| ==> !Opens(msgs[k], id) && !Closes(msgs[k], id)
  }

  ghost predicate Standing(msgs: seq<Message>, id: nat) {
    exists j :: Stands(msgs, j, id)
  }

  lemma {:induction false} ApplyAllSnoc(a: Account, msgs: seq<Message>, m: Message)
    ensures ApplyAll(a, msgs + [m]) == Apply(ApplyAll(a, msgs), m)
    decreases |msgs|
  {
    hide Apply;
    if msgs == [] {
      assert [m][1..] == [];
    } else {
      assert (msgs + [m])[1..] == msgs[1..] + [m];
      ApplyAllSnoc(Apply(a, msgs[0]), msgs[1..], m);
    }
  }

  lemma {:induction false} StandsSnoc(msgs: seq<Message>, m: Message, j: nat, id: nat)
    ensures Stands(msgs + [m], j, id)
            <==> (j == |msgs| && Opens(m, id)) || (Stands(msgs, j, id) && !Opens(m, id) && !Closes(m, id))
  {
    hide Opens, Closes;
    var all := msgs + [m];
    assert all[|msgs|] == m;
    assert forall k :: 0 <= k < |msgs| ==> all[k] == msgs[k];
  }

  lemma {:induction false} StandingSnoc(msgs: seq<Message>, m: Message, id: nat)
    ensures Standing(msgs + [m], id) <==> Opens(m, id) || (Standing(msgs, id) && !Closes(m, id))
  {
    hide Stands, Opens, Closes;
    forall j: nat
      ensures Stands(msgs + [m], j, id)
              <==> (j == |msgs| && Opens(m, id)) || (Stands(msgs, j, id) && !Opens(m, id) && !Closes(m, id))
    {
      StandsSnoc(msgs, m, j, id);
    }
    if Opens(m, id) { assert Stands(msgs + [m], |msgs|, id); }
    if Standing(msgs, id) && !Opens(m, id) && !Closes(m, id) {
      var j :| Stands(msgs, j, id);
      assert Stands(msgs + [m], j, id);
    }
  }

  /** For every stream of messages: execution keeps a context for exactly the ids whose last
      command has had no terminal report since, and it is that command's. */
  lemma {:induction false} ContextIsStanding(msgs: seq<Message>, id: nat)
    ensures var ctx := ApplyAll(OPENING, msgs).ctx;
      && (id in ctx <==> Standing(msgs, id))
      && forall j: nat :: Stands(msgs, j, id) ==> id in ctx && ctx[id] == (msgs[j].c.originTs, msgs[j].c.side)
  {
    if msgs != [] {
      var init, m := msgs[..|msgs| - 1], msgs[|msgs| - 1];
      assert msgs == init + [m];
      ContextIsStanding(init, id);
      ApplyAllSnoc(OPENING, init, m);
      StandingSnoc(init, m, id);
      hide Stands, ApplyAll, Standing;
      var ctx := ApplyAll(OPENING, msgs).ctx;
      forall j: nat | Stands(msgs, j, id)
        ensures j < |msgs| && msgs[j].OrderMsg? && id in ctx && ctx[id] == (msgs[j].c.originTs, msgs[j].c.side)
      {
        StandsInside(msgs, j, id);
        StandsSnoc(init, m, j, id);
        assert ctx == Apply(ApplyAll(OPENING, init), m).ctx;
        if Stands(init, j, id) {
          StandsInside(init, j, id);
          assert msgs[j] == init[j];
        }
      }
      assert id in ctx <==> Standing(msgs, id);
    } else {
      assert !Standing(msgs, id);
    }
  }

  lemma {:induction false} StandsInside(msgs: seq<Message>, j: nat, id: nat)
    requires Stands(msgs, j, id)
    ensures j < |msgs| && msgs[j].OrderMsg?
  {
  }

  /** The side of the last command for an id. */
  function LastSide(msgs: seq<Message>, id: nat): nat {
    if msgs == [] then 0
    else
      var m := msgs[|msgs| - 1];
      if Opens(m, id) then m.c.side else LastSide(msgs[..|msgs| - 1], id)
  }

  /** A message is booked if it is a fill report whose order stands when it comes. */
  ghost predicate Booked(before: seq<Message>, m: Message) {
    m.ReportMsg? && Books(m.r) && Standing(before, m.r.orderId)
  }

  /** What a stream books: the signed sums, in whole units, and the counts over its booked reports. */
  ghost function BookedLots(msgs: seq<Message>): int {
    if msgs == [] then 0
    else
      var init, m := msgs[..|msgs| - 1], msgs[|msgs| - 1];
      BookedLots(init) + if Booked(init, m) then Lots(m.r, LastSide(init, m.r.orderId)) else 0
  }

  ghost function BookedProceeds(msgs: seq<Message>): int {
    if msgs == [] then 0
    else
      var init, m := msgs[..|msgs| - 1], msgs[|msgs| - 1];
      BookedProceeds(init) + if Booked(init, m) then Proceeds(m.r, LastSide(init, m.r.orderId)) else 0
  }

  ghost function BookedFills(msgs: seq<Message>): nat {
    if msgs == [] then 0
    else
      var init, m := msgs[..|msgs| - 1], msgs[|msgs| - 1];
      BookedFills(init) + if Booked(init, m) then 1 else 0
  }

  ghost function BookedTerminals(msgs: seq<Message>): nat {
    if msgs == [] then 0
    else
      var init, m := msgs[..|msgs| - 1], msgs[|msgs| - 1];
      BookedTerminals(init) + if Booked(init, m) && m.r.status == 2 then 1 else 0
  }

  lemma {:induction false} StandingSide(msgs: seq<Message>, j: nat, id: nat)
    requires Stands(msgs, j, id)
    ensures msgs[j].c.side == LastSide(msgs, id)
  {
    if j < |msgs| - 1 {
      assert Stands(msgs[..|msgs| - 1], j, id);
      StandingSide(msgs[..|msgs| - 1], j, id);
    }
  }

  /** For every stream of messages, whatever reports it holds: position, cash and counts are the
      sums over exactly the booked reports, each signed by the side of its last command. */
  lemma {:induction false} StreamIsExact(msgs: seq<Message>)
    ensures var z := ApplyAll(OPENING, msgs);
      && CountsLots(z.position, BookedLots(msgs)) && CountsProceeds(z.cash, BookedProceeds(msgs))
      && z.fills == BookedFills(msgs) && z.completed == BookedTerminals(msgs)
  {
    if msgs != [] {
      hide PositionOf, CashOf, Lots, Proceeds, Standing, Stands;
      var init, m := msgs[..|msgs| - 1], msgs[|msgs| - 1];
      assert msgs == init + [m];
      if m.ReportMsg? { FlowsCount(m.r, LastSide(init, m.r.orderId)); }
      StreamIsExact(init);
      ApplyAllSnoc(OPENING, init, m);
      if m.ReportMsg? { ContextSide(init, m.r.orderId); }
      hide ApplyAll;
    }
  }

  lemma {:induction false} ContextSide(msgs: seq<Message>, id: nat)
    ensures var ctx := ApplyAll(OPENING, msgs).ctx;
      && (id in ctx <==> Standing(msgs, id))
      && (id in ctx ==> ctx[id].1 == LastSide(msgs, id))
  {
    hide ApplyAll;
    ContextIsStanding(msgs, id);
    if Standing(msgs, id) {
      var j :| Stands(msgs, j, id);
      StandingSide(msgs, j, id);
    }
  }

  function Delivered(reps: seq<Report>): seq<Message> {
    if reps == [] then [] else [ReportMsg(reps[0])] + Delivered(reps[1..])
  }

  lemma {:induction false} UnknownAreSkipped(a: Account, reps: seq<Report>)
    requires forall i :: 0 <= i < |reps| ==> reps[i].orderId !in a.ctx
    ensures ApplyAll(a, Delivered(reps)) == a
    decreases |reps|
  {
    if reps != [] {
      assert Delivered(reps)[1..] == Delivered(reps[1..]);
      UnknownAreSkipped(a, reps[1..]);
    }
  }

  /** What is lost when an order is filled in pieces that are each reported as terminal: only the
      first piece is booked, and position and cash fall short by the sums over all the others. */
  lemma {:induction false} PiecesAreLost(a: Account, c: Command, reps: seq<Report>)
    requires reps != [] && c.orderId !in a.ctx
    requires forall i :: 0 <= i < |reps| ==> reps[i].orderId == c.orderId && reps[i].status == 2
    ensures var z := ApplyAll(a, [OrderMsg(c)] + Delivered(reps));
      var ctx := map[c.orderId := (c.originTs, c.side)];
      && z.ctx == a.ctx && z.fills == a.fills + 1 && z.completed == a.completed + 1
      && CountsLots(z.position - a.position, LotSum(reps, ctx) - LotSum(reps[1..], ctx))
      && CountsProceeds(z.cash - a.cash, ProceedSum(reps, ctx) - ProceedSum(reps[1..], ctx))
  {
    FlowsCount(reps[0], c.side);
    hide PositionOf, CashOf, Lots, Proceeds;
    var first := ReportMsg(reps[0]);
    var msgs := [OrderMsg(c)] + Delivered(reps);
    var b := Apply(a, OrderMsg(c));
    assert msgs[1..] == Delivered(reps) && Delivered(reps)[1..] == Delivered(reps[1..]);
    UnknownAreSkipped(Apply(b, first), reps[1..]);
    assert Apply(b, first).ctx == a.ctx;
    assert ApplyAll(b, Delivered(reps)) == ApplyAll(Apply(b, first), Delivered(reps[1..]));
  }
}
