/** Book and execution agree: over every run of marketable strategy orders, and every lossless
    in-order delivery, the execution stage ends with what the book really did. */
module EndToEnd {
  import opened FlatBook
  import opened BookRuns
  import opened Exchange
  import opened Reports
  import opened Execution

  /** Every command is a new market order. */
  predicate Marketable(inputs: seq<Input>) {
    inputs != [] ==>
      && (inputs[0].Cmd? ==> inputs[0].c.action != 1 && inputs[0].c.action != 2 && inputs[0].c.orderType != 1)
      && Marketable(inputs[1..])
  }

  function CommandsIn(inputs: seq<Input>): seq<Command> {
    if inputs == [] then [] else (if inputs[0].Cmd? then [inputs[0].c] else []) + CommandsIn(inputs[1..])
  }

  // ------------------------------------------------------------ what the book really did

  /** Lots of some fills of one order, counted up for a buy and down for a sale. */
  function FillLots(fills: seq<Fill>, buys: bool): int {
    if fills == [] then 0
    else
      var q: int := fills[0].quantity;
      (if buys then q else -q) + FillLots(fills[1..], buys)
  }

  /** Their proceeds, less the fees. */
  function FillProceeds(fills: seq<Fill>, buys: bool, feeBps: real): int {
    if fills == [] then 0
    else
      var f := fills[0];
      (if buys then -(f.priceTicks * f.quantity) else f.priceTicks * f.quantity)
      - 100_000_000 * Fee(f.priceTicks, f.quantity, feeBps)
      + FillProceeds(fills[1..], buys, feeBps)
  }

  predicate Completed(v: Venue, c: Command) {
    c.quantity > 0 && Submit(v.book, c.Order()).outcome.Filled?
  }

  /** Lots bought less lots sold by all strategy-taker fills of a run; side byte 0 buys. */
  function TrueLots(v: Venue, inputs: seq<Input>): int
    decreases |inputs|
  {
    if inputs == [] then 0
    else
      (if inputs[0].Cmd? then FillLots(Submit(v.book, inputs[0].c.Order()).fills, inputs[0].c.side == 0) else 0)
      + TrueLots(VenueStep(v, inputs[0]), inputs[1..])
  }

  function TrueProceeds(v: Venue, inputs: seq<Input>, feeBps: real): int
    decreases |inputs|
  {
    if inputs == [] then 0
    else
      (if inputs[0].Cmd? then
         FillProceeds(Submit(v.book, inputs[0].c.Order()).fills, inputs[0].c.side == 0, feeBps) else 0)
      + TrueProceeds(VenueStep(v, inputs[0]), inputs[1..], feeBps)
  }

  /** The ids of the orders whose outcome was Filled with a positive quantity. */
  function CompletedIds(v: Venue, inputs: seq<Input>): set<nat>
    decreases |inputs|
  {
    if inputs == [] then {}
    else
      (if inputs[0].Cmd? && Completed(v, inputs[0].c) then {inputs[0].c.orderId} else {})
      + CompletedIds(VenueStep(v, inputs[0]), inputs[1..])
  }

  function CompletedCount(v: Venue, inputs: seq<Input>): nat
    decreases |inputs|
  {
    if inputs == [] then 0
    else
      (if inputs[0].Cmd? && Completed(v, inputs[0].c) then 1 else 0)
      + CompletedCount(VenueStep(v, inputs[0]), inputs[1..])
  }

  // ------------------------------------------------------------ the reports of one submission

  /** No booked report follows a terminal one of the same order. */
  predicate Clean(reps: seq<Report>, done: set<nat>) {
    reps != [] ==>
      && Books(reps[0]) && reps[0].orderId !in done
      && Clean(reps[1..], if reps[0].status == 2 then done + {reps[0].orderId} else done)
  }

  /** Everything execution will make of a stretch of reports. */
  ghost predicate Tell(reps: seq<Report>, done: set<nat>, ctx: map<nat, (nat, nat)>,
                       ids: set<nat>, count: nat, lots: int, proceeds: int)
  {
    && Clean(reps, done)
    && Done(reps) == ids && Terminals(reps) == count
    && LotSum(reps, ctx) == lots && ProceedSum(reps, ctx) == proceeds
  }

  lemma {:induction false} TellAppend(a: seq<Report>, b: seq<Report>, done: set<nat>, ctx: map<nat, (nat, nat)>,
                                     i: set<nat>, n: nat, p: int, k: int, j: set<nat>, m: nat, q: int, l: int)
    requires Tell(a, done, ctx, i, n, p, k) && Tell(b, done + i, ctx, j, m, q, l)
    ensures Tell(a + b, done, ctx, i + j, n + m, p + q, k + l)
    decreases |a|
  {
    if a == [] {
      assert a + b == b && done + i == done && i + j == j;
    } else {
      var id := if a[0].status == 2 then {a[0].orderId} else {};
      var done' := if a[0].status == 2 then done + {a[0].orderId} else done;
      assert done + i == done' + Done(a[1..]);
      assert (a + b)[1..] == a[1..] + b;
      TellAppend(a[1..], b, done', ctx, Done(a[1..]), Terminals(a[1..]), LotSum(a[1..], ctx), ProceedSum(a[1..], ctx),
                 j, m, q, l);
      assert i + j == id + (Done(a[1..]) + j);
    }
  }

  lemma {:induction false} TakerReportsCons(f: Fill, fills: seq<Fill>, feeBps: real)
    requires !f.takerIsSynthetic
    ensures TakerReports([f] + fills, feeBps) == [TakerReport(f, feeBps)] + TakerReports(fills, feeBps)
  {
    assert ([f] + fills)[1..] == fills;
  }

  /** A taker's reports: none after its terminal one, which is there exactly when it is finished. */
  predicate TakerTold(reps: seq<Report>, id: nat, done: set<nat>, finished: bool) {
    && Clean(reps, done)
    && Done(reps) == (if finished then {id} else {})
    && Terminals(reps) == if finished then 1 else 0
  }

  lemma {:induction false} FirstTold(f: Fill, rest: seq<Report>, feeBps: real, done: set<nat>, finished: bool)
    requires f.takerOrderId !in done
    requires if f.takerRemainingAfter == 0 then rest == [] && finished
             else TakerTold(rest, f.takerOrderId, done, finished)
    ensures TakerTold([TakerReport(f, feeBps)] + rest, f.takerOrderId, done, finished)
  {
    assert ([TakerReport(f, feeBps)] + rest)[1..] == rest;
  }

  /** The reports of one strategy taker: all under its id, partial until a terminal one that
      comes last, which is there exactly when the taker is done. */
  lemma {:induction false} TakerReportsClean(o: Order, side: Side, opp: seq<Entry>, left: nat, feeBps: real,
                                             done: set<nat>)
    requires SideValid(side, opp) && !o.isSynthetic && o.id !in done
    ensures var m := Take(o, opp, left);
      TakerTold(TakerReports(m.fills, feeBps), o.id, done, left > 0 && m.left == 0)
  {
    if left > 0 && opp != [] && Acceptable(o, opp[0].px) {
      var q := Min(left, opp[0].order.remaining);
      var f := MakeFill(o, opp[0], q, left - q);
      var n := if q < opp[0].order.remaining then Match([], 0, opp) else Take(o, opp[1..], left - q);
      assert Take(o, opp, left).fills == [f] + n.fills;
      if left - q > 0 { TakerReportsClean(o, side, opp[1..], left - q, feeBps, done); }
      hide TakerTold, TakerReports, TakerReport;
      TakerReportsCons(f, n.fills, feeBps);
      NoReports(n.fills, feeBps);
      FirstTold(f, TakerReports(n.fills, feeBps), feeBps, done, left - q == 0 || n.left == 0);
    }
  }

  lemma {:induction false} NoReports(fills: seq<Fill>, feeBps: real)
    ensures fills == [] ==> TakerReports(fills, feeBps) == []
  {
  }

  /** The reports of one strategy taker carry its fills, one for one. */
  lemma {:induction false} TakerReportsSums(fills: seq<Fill>, id: nat, sideByte: nat, feeBps: real, ctx: map<nat,
                                            (nat, nat)>)
    requires forall f :: f in fills ==> f.takerOrderId == id && !f.takerIsSynthetic
    requires id in ctx && ctx[id].1 == sideByte
    ensures LotSum(TakerReports(fills, feeBps), ctx) == FillLots(fills, sideByte == 0)
    ensures ProceedSum(TakerReports(fills, feeBps), ctx) == FillProceeds(fills, sideByte == 0, feeBps)
  {
    if fills != [] {
      var r, rest := TakerReport(fills[0], feeBps), TakerReports(fills[1..], feeBps);
      assert fills[0] in fills;
      CommissionIsFee(fills[0].priceTicks, fills[0].quantity, feeBps);
      hide Fee, Commission;
      TakerReportsSums(fills[1..], id, sideByte, feeBps, ctx);
      assert TakerReports(fills, feeBps) == [r] + rest && ([r] + rest)[1..] == rest;
    }
  }

  lemma {:induction false} TakersAreOwn(o: Order, opp: seq<Entry>, left: nat)
    ensures forall f :: f in Take(o, opp, left).fills ==> f.takerOrderId == o.id && f.takerIsSynthetic == o.isSynthetic
  {
    if left == 0 || opp == [] || !Acceptable(o, opp[0].px) {
    } else {
      TakersAreOwn(o, opp[1..], left - Min(left, opp[0].order.remaining));
    }
  }

  // ------------------------------------------------------------ no strategy order rests

  lemma {:induction false} MarketCommandKeeps(v: Venue, c: Command)
    requires Invariant(v, {}) && c.orderId < SYNTHETIC_BIT
    requires c.action != 1 && c.action != 2 && c.orderType != 1
    ensures Invariant(AfterCommand(v, c), {})
    ensures RunFills(v.book, VenueEvents(v, Cmd(c))) == Submit(v.book, c.Order()).fills
  {
    CommandKeepsInvariant(v, {}, c);
    CommandUnfolds(v.book, c);
    StepIds(v.book, New(c.Order()));
  }

  lemma {:induction false} SyntheticMakers(o: Order, s: seq<Entry>, left: nat, feeBps: real)
    requires Flagged(s) && forall id :: id in IdsOf(s) ==> id >= SYNTHETIC_BIT
    ensures MakerReports(Take(o, s, left).fills, feeBps) == []
  {
    if left == 0 || s == [] || !Acceptable(o, s[0].px) {
    } else {
      var q := Min(left, s[0].order.remaining);
      assert s[0].order.orderId in IdsOf(s);
      if q == s[0].order.remaining {
        SyntheticMakers(o, s[1..], left - q, feeBps);
        assert Take(o, s, left).fills[1..] == Take(o, s[1..], left - q).fills;
      } else {
        assert Take(o, s, left).fills[1..] == [];
      }
    }
  }

  lemma {:induction false} SubmitHitsNoStrategyMaker(v: Venue, o: Order, feeBps: real)
    requires Invariant(v, {})
    ensures MakerReports(Submit(v.book, o).fills, feeBps) == []
  {
    var opp := v.book.On(o.side.Opposite());
    assert forall id :: id in IdsOf(opp) ==> id in v.book.Ids();
    SyntheticMakers(o, opp, o.quantity, feeBps);
  }

  lemma {:induction false} QuotesReportNothing(v: Venue, r: Round, feeBps: real)
    requires Invariant(v, {}) && v.next + 3 <= SYNTHETIC_BIT
    ensures MakerReports(RunFills(v.book, QuoteEvents(v, r)), feeBps) == []
  {
    var bid, ask := BidOf(v, r), AskOf(v, r);
    QuotesUnfold(v, r, []);
    QuoteKeeps(v, {}, bid);
    SubmitHitsNoStrategyMaker(v, bid, feeBps);
    SubmitHitsNoStrategyMaker(AfterQuote(v, bid), ask, feeBps);
    ReportsAppend(Submit(v.book, bid).fills, Submit(AfterQuote(v, bid).book, ask).fills, feeBps);
    assert RunFills(v.book, QuoteEvents(v, r))
      == Submit(v.book, bid).fills + Submit(AfterQuote(v, bid).book, ask).fills;
  }

  lemma {:induction false} TakerReportsNothing(v: Venue, r: Round, feeBps: real)
    requires Invariant(v, {})
    ensures MakerReports(RunFills(v.book, TakerEvents(v, r)), feeBps) == []
  {
    if r.cross.Some? {
      AfterOne(v.book, New(TakerOf(v, r)));
      SubmitHitsNoStrategyMaker(v, TakerOf(v, r), feeBps);
    }
  }

  /** With only synthetic orders resting, a round reports nothing. */
  lemma {:induction false} RoundReportsNothing(v: Venue, r: Round, feeBps: real)
    requires Invariant(v, {}) && v.next + 3 <= SYNTHETIC_BIT
    ensures StepReports(v, Tick(r), feeBps) == []
  {
    var v1, v2 := AfterQuotes(v, r), AfterCancel(AfterQuotes(v, r), r);
    QuotesReportNothing(v, r, feeBps);
    assert Invariant(v2, {}) by {
      QuotesKeep(v, {}, r);
      CancelKeeps(v1, {}, r);
    }
    TakerReportsNothing(v2, r, feeBps);
    var q, t := RunFills(v.book, QuoteEvents(v, r)), RunFills(v2.book, TakerEvents(v2, r));
    assert StepReports(v, Tick(r), feeBps) == MakerReports(q + t, feeBps) by { RoundFills(v, r); }
    ReportsAppend(q, t, feeBps);
  }

  // ------------------------------------------------------------ the reports of a whole run

  /** A market command's own reports and what they add up to. */
  lemma {:induction false} CommandReports(v: Venue, c: Command, feeBps: real, done: set<nat>, ctx: map<nat, (nat, nat)>)
    requires Invariant(v, {}) && c.orderId < SYNTHETIC_BIT && c.orderId !in done
    requires c.action != 1 && c.action != 2 && c.orderType != 1
    requires c.orderId in ctx && ctx[c.orderId].1 == c.side
    ensures var reps := StepReports(v, Cmd(c), feeBps); var fills := Submit(v.book, c.Order()).fills;
      Tell(reps, done, ctx, if Completed(v, c) then {c.orderId} else {}, if Completed(v, c) then 1 else 0,
           FillLots(fills, c.side == 0), FillProceeds(fills, c.side == 0, feeBps))
  {
    var o := c.Order();
    var opp := o.side.Opposite();
    MarketCommandKeeps(v, c);
    assert SideValid(opp, v.book.On(opp)) by { assert opp == Buy || opp == Sell; }
    TakerReportsClean(o, opp, v.book.On(opp), o.quantity, feeBps, done);
    TakersAreOwn(o, v.book.On(opp), o.quantity);
    TakerReportsSums(Submit(v.book, o).fills, c.orderId, c.side, feeBps, ctx);
  }

  /** The contexts hold the side of every command still to come. */
  predicate Knows(ctx: map<nat, (nat, nat)>, inputs: seq<Input>) {
    inputs != [] ==>
      && (inputs[0].Cmd? ==> inputs[0].c.orderId in ctx && ctx[inputs[0].c.orderId].1 == inputs[0].c.side)
      && Knows(ctx, inputs[1..])
  }

  /** The reports of a run say exactly what the book did. */
  lemma {:induction false} RunReportsExact(v: Venue, inputs: seq<Input>, feeBps: real, used: set<nat>, done: set<nat>,
                                          ctx: map<nat, (nat, nat)>)
    requires Invariant(v, {}) && Marketable(inputs) && Issued(inputs, used) && done <= used && Knows(ctx, inputs)
    requires v.next + 3 * Ticks(inputs) <= SYNTHETIC_BIT
    ensures Tell(RunReports(v, inputs, feeBps), done, ctx, CompletedIds(v, inputs), CompletedCount(v, inputs),
                 TrueLots(v, inputs), TrueProceeds(v, inputs, feeBps))
    ensures Invariant(VenueRun(v, inputs), {})
    decreases |inputs|
  {
    if inputs != [] {
      var rest, v' := inputs[1..], VenueStep(v, inputs[0]);
      match inputs[0]
      case Cmd(c) =>
        MarketCommandKeeps(v, c);
        CommandReports(v, c, feeBps, done, ctx);
        RunReportsExact(v', rest, feeBps, used + {c.orderId},
                        done + if Completed(v, c) then {c.orderId} else {}, ctx);
        TellCommand(v, c, inputs, feeBps, done, ctx);
      case Tick(r) =>
        RoundKeepsInvariant(v, {}, r);
        NextAfterRound(v, r);
        RoundReportsNothing(v, r, feeBps);
        RunReportsExact(v', rest, feeBps, used, done, ctx);
        TellTick(v, r, inputs, feeBps, done, ctx);
    }
  }

  lemma {:induction false} TellCommand(v: Venue, c: Command, inputs: seq<Input>, feeBps: real, done: set<nat>,
                                      ctx: map<nat, (nat, nat)>)
    requires inputs != [] && inputs[0] == Cmd(c)
    requires var fills := Submit(v.book, c.Order()).fills;
      Tell(StepReports(v, Cmd(c), feeBps), done, ctx, if Completed(v, c) then {c.orderId} else {},
           if Completed(v, c) then 1 else 0,
           FillLots(fills, c.side == 0), FillProceeds(fills, c.side == 0, feeBps))
    requires var v', rest := VenueStep(v, Cmd(c)), inputs[1..];
      Tell(RunReports(v', rest, feeBps), done + (if Completed(v, c) then {c.orderId} else {}), ctx,
           CompletedIds(v', rest), CompletedCount(v', rest), TrueLots(v', rest), TrueProceeds(v', rest, feeBps))
    ensures Tell(RunReports(v, inputs, feeBps), done, ctx, CompletedIds(v, inputs), CompletedCount(v, inputs),
                 TrueLots(v, inputs), TrueProceeds(v, inputs, feeBps))
  {
    var v', rest, fills := VenueStep(v, Cmd(c)), inputs[1..], Submit(v.book, c.Order()).fills;
    TellAppend(StepReports(v, Cmd(c), feeBps), RunReports(v', rest, feeBps), done, ctx,
               if Completed(v, c) then {c.orderId} else {}, if Completed(v, c) then 1 else 0,
               FillLots(fills, c.side == 0), FillProceeds(fills, c.side == 0, feeBps),
               CompletedIds(v', rest), CompletedCount(v', rest), TrueLots(v', rest), TrueProceeds(v', rest, feeBps));
  }

  lemma {:induction false} TellTick(v: Venue, r: Round, inputs: seq<Input>, feeBps: real, done: set<nat>,
                                   ctx: map<nat, (nat, nat)>)
    requires inputs != [] && inputs[0] == Tick(r) && StepReports(v, Tick(r), feeBps) == []
    requires var v', rest := VenueStep(v, Tick(r)), inputs[1..];
      Tell(RunReports(v', rest, feeBps), done, ctx,
           CompletedIds(v', rest), CompletedCount(v', rest), TrueLots(v', rest), TrueProceeds(v', rest, feeBps))
    ensures Tell(RunReports(v, inputs, feeBps), done, ctx, CompletedIds(v, inputs), CompletedCount(v, inputs),
                 TrueLots(v, inputs), TrueProceeds(v, inputs, feeBps))
  {
    assert RunReports(v, inputs, feeBps) == RunReports(VenueStep(v, Tick(r)), inputs[1..], feeBps);
  }

  // ------------------------------------------------------------ delivery

  /** A lossless in-order delivery of the command stream and the report stream, merged in any
      way that delivers each command before its reports. */
  predicate Delivers(msgs: seq<Message>, cmds: seq<Command>, reps: seq<Report>, seen: set<nat>)
    decreases |msgs|
  {
    if msgs == [] then cmds == [] && reps == []
    else
      match msgs[0]
      case OrderMsg(c) => cmds != [] && cmds[0] == c && Delivers(msgs[1..], cmds[1..], reps, seen + {c.orderId})
      case ReportMsg(r) => reps != [] && reps[0] == r && r.orderId in seen && Delivers(msgs[1..], cmds, reps[1..], seen)
  }

  /** New orders never reuse an id. */
  predicate NewIds(cmds: seq<Command>, seen: set<nat>) {
    cmds != [] ==> cmds[0].orderId !in seen && NewIds(cmds[1..], seen + {cmds[0].orderId})
  }

  lemma {:induction false} DeliveryIsCausal(msgs: seq<Message>, cmds: seq<Command>, reps: seq<Report>,
                                           seen: map<nat, (nat, nat)>, done: set<nat>)
    requires Delivers(msgs, cmds, reps, seen.Keys) && Clean(reps, done) && NewIds(cmds, seen.Keys)
    ensures Causal(msgs, seen, done) && OrdersIn(msgs) == cmds && ReportsIn(msgs) == reps
    decreases |msgs|
  {
    if msgs != [] {
      match msgs[0]
      case OrderMsg(c) =>
        var seen' := seen[c.orderId := (c.originTs, c.side)];
        assert seen'.Keys == seen.Keys + {c.orderId};
        DeliveryIsCausal(msgs[1..], cmds[1..], reps, seen', done);
        assert cmds == [c] + cmds[1..];
      case ReportMsg(r) =>
        DeliveryIsCausal(msgs[1..], cmds, reps[1..], seen, if r.status == 2 then done + {r.orderId} else done);
        assert reps == [r] + reps[1..];
    }
  }

  lemma {:induction false} IssuedNewIds(inputs: seq<Input>, used: set<nat>)
    requires Issued(inputs, used) && Marketable(inputs)
    ensures NewIds(CommandsIn(inputs), used)
  {
    if inputs != [] {
      match inputs[0]
      case Cmd(c) =>
        IssuedNewIds(inputs[1..], used + {c.orderId});
        assert CommandsIn(inputs)[1..] == CommandsIn(inputs[1..]);
      case Tick(r) =>
        IssuedNewIds(inputs[1..], used);
        assert CommandsIn(inputs) == CommandsIn(inputs[1..]);
    }
  }

  lemma {:induction false} ContextsHold(cmds: seq<Command>, seen: map<nat, (nat, nat)>, id: nat)
    requires NewIds(cmds, seen.Keys) && id in seen
    ensures id in Contexts(cmds, seen) && Contexts(cmds, seen)[id] == seen[id]
    decreases |cmds|
  {
    if cmds != [] {
      var seen' := seen[cmds[0].orderId := (cmds[0].originTs, cmds[0].side)];
      assert seen'.Keys == seen.Keys + {cmds[0].orderId};
      ContextsHold(cmds[1..], seen', id);
    }
  }

  lemma {:induction false} ContextsKnow(inputs: seq<Input>, seen: map<nat, (nat, nat)>)
    requires NewIds(CommandsIn(inputs), seen.Keys)
    ensures Knows(Contexts(CommandsIn(inputs), seen), inputs)
    decreases |inputs|
  {
    if inputs != [] {
      match inputs[0]
      case Cmd(c) =>
        var seen' := seen[c.orderId := (c.originTs, c.side)];
        assert CommandsIn(inputs)[1..] == CommandsIn(inputs[1..]);
        assert seen'.Keys == seen.Keys + {c.orderId};
        ContextsKnow(inputs[1..], seen');
        ContextsHold(CommandsIn(inputs[1..]), seen', c.orderId);
      case Tick(r) =>
        assert CommandsIn(inputs) == CommandsIn(inputs[1..]);
        ContextsKnow(inputs[1..], seen);
    }
  }

  /** End to end.  From any venue with only synthetic orders resting, for every run of market
      commands among participant rounds, and every lossless in-order delivery: execution's
      position and cash are the signed sums over the book's strategy-taker fills, it counts
      exactly the orders that were fully filled, it keeps exactly the contexts of the others,
      and no strategy order rests. */
  lemma {:induction false} BookAndExecutionAgree(v: Venue, inputs: seq<Input>, feeBps: real, msgs: seq<Message>)
    requires Invariant(v, {}) && Marketable(inputs) && Issued(inputs, {})
    requires v.next + 3 * Ticks(inputs) <= SYNTHETIC_BIT
    requires Delivers(msgs, CommandsIn(inputs), RunReports(v, inputs, feeBps), {})
    ensures var z := ApplyAll(OPENING, msgs);
      && z.position * 100_000_000.0 == TrueLots(v, inputs) as real
      && z.cash * 10_000_000_000_000_000.0 == TrueProceeds(v, inputs, feeBps) as real
      && z.completed == CompletedCount(v, inputs)
      && z.ctx == Contexts(CommandsIn(inputs), map[]) - CompletedIds(v, inputs)
    ensures forall id :: id in VenueRun(v, inputs).book.Ids() ==> id >= SYNTHETIC_BIT
  {
    hide TrueLots, TrueProceeds, RunReports, CommandsIn, Delivers, Causal, ApplyAll, LotSum, ProceedSum, Clean, NewIds;
    hide CompletedIds, CompletedCount, Marketable, Issued, Knows, VenueRun, Ticks, Flagged, SideValid;
    var cmds, reps := CommandsIn(inputs), RunReports(v, inputs, feeBps);
    var none: map<nat, (nat, nat)> := map[];
    IssuedNewIds(inputs, {});
    assert none.Keys == {};
    ContextsKnow(inputs, none);
    RunReportsExact(v, inputs, feeBps, {}, {}, Contexts(cmds, none));
    DeliveryIsCausal(msgs, cmds, reps, none, {});
    AccountIsExact(OPENING, msgs, none, {});
  }
}
