/** What the published reports say, order by order: each strategy order is told exactly the fills it
    had, whole runs long, and no report names a synthetic order. */
module ReportLaws {
  import opened FlatBook
  import opened BookRuns
  import opened Exchange
  import opened Reports

  // ------------------------------------------------------------ flags are true

  /** Every fill is flagged synthetic, on either side, exactly when the id there says so. */
  ghost predicate TrueFlags(fills: seq<Fill>) {
    forall f :: f in fills ==>
      && (f.takerIsSynthetic <==> f.takerOrderId >= SYNTHETIC_BIT)
      && (f.makerIsSynthetic <==> f.makerOrderId >= SYNTHETIC_BIT)
  }

  lemma {:induction false} TrueFlagsAppend(f: seq<Fill>, g: seq<Fill>)
    ensures TrueFlags(f + g) <==> TrueFlags(f) && TrueFlags(g)
  {
    assert forall x :: x in f + g <==> x in f || x in g;
  }

  lemma {:induction false} TakeTrueFlags(o: Order, s: seq<Entry>, left: nat)
    requires Flagged(s) && (o.isSynthetic <==> o.id >= SYNTHETIC_BIT)
    ensures TrueFlags(Take(o, s, left).fills)
  {
    if left == 0 || s == [] || !Acceptable(o, s[0].px) {
    } else {
      var q := Min(left, s[0].order.remaining);
      var f := MakeFill(o, s[0], q, left - q);
      assert TrueFlags([f]);
      if q == s[0].order.remaining {
        TakeTrueFlags(o, s[1..], left - q);
        TrueFlagsAppend([f], Take(o, s[1..], left - q).fills);
      }
    }
  }

  predicate OwnFlags(evs: seq<Event>) {
    forall i :: 0 <= i < |evs| ==> OwnFlag(evs[i])
  }

  lemma {:induction false} RunTrueFlags(b: Ladder, evs: seq<Event>)
    requires Flagged(b.bids) && Flagged(b.asks) && OwnFlags(evs)
    ensures TrueFlags(RunFills(b, evs))
    decreases |evs|
  {
    hide OwnFlag, Take, Flagged;
    if evs != [] {
      var ev := evs[0];
      if ev.New? { SubmitTrueFlags(b, ev.o); }
      StepFlagged(b, ev);
      hide TrueFlags, Submit;
      assert OwnFlags(evs[1..]);
      RunTrueFlags(Step(b, ev).book, evs[1..]);
      TrueFlagsAppend(Step(b, ev).fills, RunFills(Step(b, ev).book, evs[1..]));
      if ev.Pull? { assert TrueFlags([]) by { NoFlags(); } }
    }
  }

  lemma {:induction false} NoFlags()
    ensures TrueFlags([])
  {
  }

  lemma {:induction false} SubmitTrueFlags(b: Ladder, o: Order)
    requires Flagged(b.bids) && Flagged(b.asks) && OwnFlag(New(o))
    ensures TrueFlags(Submit(b, o).fills)
  {
    hide Take, Flagged, TrueFlags;
    TakeTrueFlags(o, b.On(o.side.Opposite()), o.quantity);
  }

  // ------------------------------------------------------------ one report per fill of the strategy

  /** The fills whose taker, or whose maker, carries a strategy id. */
  function TakenByStrategy(fills: seq<Fill>): seq<Fill> {
    if fills == [] then []
    else (if fills[0].takerOrderId < SYNTHETIC_BIT then [fills[0]] else []) + TakenByStrategy(fills[1..])
  }

  function MadeByStrategy(fills: seq<Fill>): seq<Fill> {
    if fills == [] then []
    else (if fills[0].makerOrderId < SYNTHETIC_BIT then [fills[0]] else []) + MadeByStrategy(fills[1..])
  }

  /** A report of a taker's fill carries what the taker still wants, and is terminal when that is nothing. */
  predicate TellsTaker(r: Report, f: Fill, feeBps: real) {
    && r.orderId == f.takerOrderId && r.executedPrice == f.priceTicks && r.executedQuantity == f.quantity
    && r.remaining == f.takerRemainingAfter
    && r.commission == Fee(f.priceTicks, f.quantity, feeBps)
    && r.status == if f.takerRemainingAfter == 0 then 2 else 1
  }

  /** A report of a maker's fill is always terminal. */
  predicate TellsMaker(r: Report, f: Fill, feeBps: real) {
    && r.orderId == f.makerOrderId && r.executedPrice == f.priceTicks && r.executedQuantity == f.quantity
    && r.remaining == 0
    && r.commission == Fee(f.priceTicks, f.quantity, feeBps)
    && r.status == 2
  }

  /** One report for each of these fills, in order. */
  ghost predicate AllToldTakers(reps: seq<Report>, own: seq<Fill>, feeBps: real) {
    |reps| == |own| && forall k :: 0 <= k < |reps| ==> TellsTaker(reps[k], own[k], feeBps)
  }

  lemma {:induction false} ToldTakerCons(r: Report, f: Fill, reps: seq<Report>, own: seq<Fill>, feeBps: real)
    requires TellsTaker(r, f, feeBps) && AllToldTakers(reps, own, feeBps)
    ensures AllToldTakers([r] + reps, [f] + own, feeBps)
  {
    hide TellsTaker;
  }

  lemma {:induction false} OneTakerTold(f: Fill, feeBps: real)
    ensures TellsTaker(TakerReport(f, feeBps), f, feeBps)
  {
    CommissionIsFee(f.priceTicks, f.quantity, feeBps);
    hide Commission, Fee;
  }

  /** The k-th report of a command tells the k-th fill whose taker is a strategy order. */
  lemma {:induction false} TakerReportsTell(fills: seq<Fill>, feeBps: real)
    requires TrueFlags(fills)
    ensures AllToldTakers(TakerReports(fills, feeBps), TakenByStrategy(fills), feeBps)
  {
    if fills != [] {
      var f, rest := fills[0], fills[1..];
      assert f in fills && forall x :: x in rest ==> x in fills;
      TakerReportsTell(rest, feeBps);
      hide AllToldTakers, TakerReport, TellsTaker, TrueFlags;
      OneTakerTold(f, feeBps);
      if !f.takerIsSynthetic {
        ToldTakerCons(TakerReport(f, feeBps), f, TakerReports(rest, feeBps), TakenByStrategy(rest), feeBps);
      }
    }
  }

  /** One report for each of these fills, in order. */
  ghost predicate AllToldMakers(reps: seq<Report>, own: seq<Fill>, feeBps: real) {
    |reps| == |own| && forall k :: 0 <= k < |reps| ==> TellsMaker(reps[k], own[k], feeBps)
  }

  lemma {:induction false} ToldMakerCons(r: Report, f: Fill, reps: seq<Report>, own: seq<Fill>, feeBps: real)
    requires TellsMaker(r, f, feeBps) && AllToldMakers(reps, own, feeBps)
    ensures AllToldMakers([r] + reps, [f] + own, feeBps)
  {
    hide TellsMaker;
  }

  lemma {:induction false} OneMakerTold(f: Fill, feeBps: real)
    ensures TellsMaker(MakerReport(f, feeBps), f, feeBps)
  {
    CommissionIsFee(f.priceTicks, f.quantity, feeBps);
    hide Commission, Fee;
  }

  /** The k-th report of a round tells the k-th fill whose maker is a strategy order. */
  lemma {:induction false} MakerReportsTell(fills: seq<Fill>, feeBps: real)
    requires TrueFlags(fills)
    ensures AllToldMakers(MakerReports(fills, feeBps), MadeByStrategy(fills), feeBps)
  {
    if fills != [] {
      var f, rest := fills[0], fills[1..];
      assert f in fills && forall x :: x in rest ==> x in fills;
      MakerReportsTell(rest, feeBps);
      hide AllToldMakers, MakerReport, TellsMaker, TrueFlags;
      OneMakerTold(f, feeBps);
      if !f.makerIsSynthetic {
        ToldMakerCons(MakerReport(f, feeBps), f, MakerReports(rest, feeBps), MadeByStrategy(rest), feeBps);
      }
    }
  }

  // ------------------------------------------------------------ what one order is told

  /** The quantity some reports say was executed for one order. */
  function Told(reps: seq<Report>, id: nat): nat {
    if reps == [] then 0
    else (if reps[0].orderId == id then reps[0].executedQuantity else 0) + Told(reps[1..], id)
  }

  lemma {:induction false} ToldAppend(a: seq<Report>, b: seq<Report>, id: nat)
    ensures Told(a + b, id) == Told(a, id) + Told(b, id)
  {
    if a == [] {
      assert a + b == b;
    } else {
      assert (a + b)[1..] == a[1..] + b;
      ToldAppend(a[1..], b, id);
    }
  }

  /** Strategy orders only. */
  ghost predicate StrategyOnly(reps: seq<Report>) {
    forall k :: 0 <= k < |reps| ==> reps[k].orderId < SYNTHETIC_BIT
  }

  lemma {:induction false} TakersToldExactly(fills: seq<Fill>, feeBps: real, id: nat)
    requires TrueFlags(fills)
    ensures StrategyOnly(TakerReports(fills, feeBps))
    ensures id < SYNTHETIC_BIT ==> Told(TakerReports(fills, feeBps), id) == TakenBy(fills, id)
  {
    if fills != [] {
      var f, rest := fills[0], fills[1..];
      assert f in fills && forall x :: x in rest ==> x in fills;
      TakersToldExactly(rest, feeBps, id);
      var first := if f.takerIsSynthetic then [] else [TakerReport(f, feeBps)];
      ToldAppend(first, TakerReports(rest, feeBps), id);
      assert [TakerReport(f, feeBps)][1..] == [];
    }
  }

  lemma {:induction false} MakersToldExactly(fills: seq<Fill>, feeBps: real, id: nat)
    requires TrueFlags(fills)
    ensures StrategyOnly(MakerReports(fills, feeBps))
    ensures id < SYNTHETIC_BIT ==> Told(MakerReports(fills, feeBps), id) == MadeBy(fills, id)
  {
    if fills != [] {
      var f, rest := fills[0], fills[1..];
      assert f in fills && forall x :: x in rest ==> x in fills;
      MakersToldExactly(rest, feeBps, id);
      var first := if f.makerIsSynthetic then [] else [MakerReport(f, feeBps)];
      ToldAppend(first, MakerReports(rest, feeBps), id);
      assert [MakerReport(f, feeBps)][1..] == [];
    }
  }

  // ------------------------------------------------------------ whole runs

  /** Every event an input brings about carries a true flag. */
  lemma {:induction false} InputOwnFlags(v: Venue, i: Input)
    requires i.Cmd? ==> i.c.orderId < SYNTHETIC_BIT
    ensures OwnFlags(VenueEvents(v, i))
  {
  }

  /** What one order had executed by one input: as taker of its own commands, as maker in rounds. */
  function Executed(v: Venue, i: Input, id: nat): nat {
    var fills := RunFills(v.book, VenueEvents(v, i));
    if i.Cmd? then TakenBy(fills, id) else MadeBy(fills, id)
  }

  function RunExecuted(v: Venue, inputs: seq<Input>, id: nat): nat
    decreases |inputs|
  {
    if inputs == [] then 0
    else Executed(v, inputs[0], id) + RunExecuted(VenueStep(v, inputs[0]), inputs[1..], id)
  }

  /** One input's reports tell every strategy order exactly what it had executed. */
  lemma {:induction false} StepTells(v: Venue, i: Input, used: set<nat>, feeBps: real, id: nat)
    requires Invariant(v, used) && (i.Cmd? ==> i.c.orderId < SYNTHETIC_BIT)
    ensures StrategyOnly(StepReports(v, i, feeBps))
    ensures id < SYNTHETIC_BIT ==> Told(StepReports(v, i, feeBps), id) == Executed(v, i, id)
  {
    hide Flagged, OwnFlags, VenueEvents, RunFills, TrueFlags;
    InputOwnFlags(v, i);
    RunTrueFlags(v.book, VenueEvents(v, i));
    TakersToldExactly(RunFills(v.book, VenueEvents(v, i)), feeBps, id);
    MakersToldExactly(RunFills(v.book, VenueEvents(v, i)), feeBps, id);
  }

  /** Over every run, limit orders, cancels and replaces included: the reports name strategy orders
      only, and tell each one exactly the quantity it had executed. */
  lemma {:induction false} RunTells(v: Venue, inputs: seq<Input>, used: set<nat>, feeBps: real, id: nat)
    requires Invariant(v, used) && Issued(inputs, used) && v.next + 3 * Ticks(inputs) <= SYNTHETIC_BIT
    ensures StrategyOnly(RunReports(v, inputs, feeBps))
    ensures id < SYNTHETIC_BIT ==> Told(RunReports(v, inputs, feeBps), id) == RunExecuted(v, inputs, id)
    decreases |inputs|
  {
    hide Invariant, StepReports, Executed, VenueStep;
    if inputs != [] {
      var i, rest, v' := inputs[0], inputs[1..], VenueStep(v, inputs[0]);
      var used' := if i.Cmd? then used + {i.c.orderId} else used;
      StepTells(v, i, used, feeBps, id);
      StepInvariant(v, used, i);
      RunTells(v', rest, used', feeBps, id);
      ToldAppend(StepReports(v, i, feeBps), RunReports(v', rest, feeBps), id);
    }
  }

  lemma {:induction false} StepInvariant(v: Venue, used: set<nat>, i: Input)
    requires Invariant(v, used) && (i.Cmd? ==> Issuable(i.c, used)) && (i.Tick? ==> v.next + 3 <= SYNTHETIC_BIT)
    ensures Invariant(VenueStep(v, i), if i.Cmd? then used + {i.c.orderId} else used)
    ensures VenueStep(v, i).next <= v.next + if i.Tick? then 3 else 0
  {
    hide Invariant;
    match i
    case Cmd(c) => CommandKeepsInvariant(v, used, c);
    case Tick(r) =>
      RoundKeepsInvariant(v, used, r);
      NextAfterRound(v, r);
  }
}
