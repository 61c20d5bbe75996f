/** The venue process: participants, command handling and report publishing, in place. */
module ExchangeStage {
  import opened FlatBook
  import opened BookRuns
  import opened Exchange
  import opened Reports
  import opened ReportLaws
  import opened Sequences
  import OrderBook

  /** Matches one strategy order: cancel, cancel and replace, or new. */
  method MatchStrategyOrder(book: OrderBook.Book, c: Command, fills0: seq<Fill>) returns (fills: seq<Fill>)
    requires book.Valid() && FreshRun(book.Abs(), c.Events())
    modifies book
    ensures book.Valid() && book.Abs() == After(old(book.Abs()), c.Events())
    ensures fills == fills0 + RunFills(old(book.Abs()), c.Events())
  {
    CommandUnfolds(book.Abs(), c);
    if c.action == 1 {
      var cancelled := book.Cancel(c.orderId);
      return fills0;
    }
    if c.action == 2 {
      var cancelled := book.Cancel(c.orderId);
    }
    var isLimit := c.orderType == 1;
    var outcome;
    outcome, fills := book.Submit(
      Order(c.orderId, SideFromU8(c.side), isLimit, c.priceTicks, c.quantity, c.originTs, false), fills0);
  }

  /** Publishes a report per fill that belongs to a strategy taker. */
  method PublishFills(reports0: seq<Report>, fills: seq<Fill>, feeBps: real) returns (reports: seq<Report>)
    ensures reports == reports0 + TakerReports(fills, feeBps)
    ensures TrueFlags(fills) ==>
              var own := TakenByStrategy(fills);
              && |reports| == |reports0| + |own|
              && forall k :: 0 <= k < |own| ==> TellsTaker(reports[|reports0| + k], own[k], feeBps)
  {
    reports := reports0;
    if TrueFlags(fills) { TakerReportsTell(fills, feeBps); }
    hide TellsTaker, TrueFlags, TakenByStrategy;
    for i := 0 to |fills|
      invariant reports == reports0 + TakerReports(fills[..i], feeBps)
    {
      var f := fills[i];
      assert fills[..i + 1] == fills[..i] + [f];
      ReportsAppend(fills[..i], [f], feeBps);
      assert [f][1..] == [];
      if f.takerIsSynthetic {
        continue;
      }
      var status := if f.takerRemainingAfter == 0 then 2 else 1;
      reports := reports + [Report(f.takerOrderId, f.priceTicks, f.quantity, f.takerRemainingAfter,
                                   Commission(f.priceTicks, f.quantity, feeBps), status)];
    }
    assert fills[..|fills|] == fills;
  }

  /** Publishes a report per fill whose resting side was the strategy's. */
  method PublishStrategyMakerFills(reports0: seq<Report>, fills: seq<Fill>, feeBps: real) returns (reports: seq<Report>)
    ensures reports == reports0 + MakerReports(fills, feeBps)
    ensures TrueFlags(fills) ==>
              var own := MadeByStrategy(fills);
              && |reports| == |reports0| + |own|
              && forall k :: 0 <= k < |own| ==> TellsMaker(reports[|reports0| + k], own[k], feeBps)
  {
    reports := reports0;
    if TrueFlags(fills) { MakerReportsTell(fills, feeBps); }
    hide TellsMaker, TrueFlags, MadeByStrategy;
    for i := 0 to |fills|
      invariant reports == reports0 + MakerReports(fills[..i], feeBps)
    {
      var f := fills[i];
      assert fills[..i + 1] == fills[..i] + [f];
      ReportsAppend(fills[..i], [f], feeBps);
      assert [f][1..] == [];
      if f.makerIsSynthetic {
        continue;
      }
      reports := reports + [Report(f.makerOrderId, f.priceTicks, f.quantity, 0,
                                   Commission(f.priceTicks, f.quantity, feeBps), 2)];
    }
    assert fills[..|fills|] == fills;
  }

  class Participants {
    var nextSynId: nat
    var live: seq<nat>

    constructor ()
      ensures nextSynId == 1 && live == []
    {
      nextSynId, live := 1, [];
    }

    ghost function View(book: OrderBook.Book): Venue
      reads this, book
    {
      Venue(book.Abs(), nextSynId, live)
    }

    /** The next id carries the synthetic bit, and for as long as the counter lasts it is none of
        those given out before: exactly until the counter passes the bit. */
    method NewSynId() returns (id: nat)
      modifies this`nextSynId
      ensures id == SynId(old(nextSynId)) && nextSynId == old(nextSynId) + 1
      ensures id >= SYNTHETIC_BIT && (old(nextSynId) < SYNTHETIC_BIT ==> id - SYNTHETIC_BIT == old(nextSynId))
      ensures old(nextSynId) < 2 * SYNTHETIC_BIT ==>
                (old(nextSynId) <= SYNTHETIC_BIT <==> forall k :: 1 <= k < old(nextSynId) ==> SynId(k) != id)
    {
      if nextSynId < 2 * SYNTHETIC_BIT { SynIdNewIff(nextSynId); }
      id := SynId(nextSynId);
      nextSynId := nextSynId + 1;
    }

    /** Drops from `live` the ids that no longer rest. */
    method Prune(book: OrderBook.Book)
      requires book.Valid()
      modifies this`live
      ensures live == Retain(old(live), book.Abs().Ids())
    {
      var kept: seq<nat> := [];
      ghost var ids := book.Abs().Ids();
      for i := 0 to |live|
        invariant live == old(live)
        invariant kept + Retain(live[i..], ids) == Retain(live, ids)
      {
        assert live[i..][1..] == live[i + 1..];
        if book.IsResting(live[i]) {
          kept := kept + [live[i]];
        }
      }
      live := kept;
    }

    /** One round of participant activity against the book. */
    method Act(book: OrderBook.Book, r: Round, sink0: seq<Fill>, ghost used: set<nat>) returns (sink: seq<Fill>)
      requires book.Valid() && Invariant(View(book), used) && nextSynId + 3 <= SYNTHETIC_BIT
      modifies this, book
      ensures book.Valid() && View(book) == AfterRound(old(View(book)), r)
      ensures sink == sink0 + RunFills(old(book.Abs()), RoundEvents(old(View(book)), r))
    {
      hide Invariant, AfterQuotes, AfterCancel, AfterTaker, RoundEvents, QuoteEvents, TakerEvents, RunFills, FreshRun;
      hide Retain, OrderBook.Book.Valid, OrderBook.Book.Abs;
      QuotesKeep(View(book), used, r);
      CancelKeeps(AfterQuotes(View(book), r), used, r);
      RoundUnfold(View(book), r, sink0);
      sink := PostQuotes(book, r, sink0);
      CancelOne(book, r);
      sink := CrossOne(book, r, sink);
      Prune(book);
    }

    /** Perhaps cancels one live order, to churn the queue. */
    method CancelOne(book: OrderBook.Book, r: Round)
      requires book.Valid()
      modifies this`live, book
      ensures book.Valid() && View(book) == AfterCancel(old(View(book)), r)
    {
      if r.cancel.Some? && live != [] {
        var idx := r.cancel.value % |live|;
        var id := live[idx];
        AfterOne(book.Abs(), Pull(id));
        live := SwapRemove(live, idx);
        var outcome := book.Cancel(id);
      }
    }

    /** Perhaps sends a synthetic taker across the spread. */
    method CrossOne(book: OrderBook.Book, r: Round, sink0: seq<Fill>) returns (sink: seq<Fill>)
      requires book.Valid()
      modifies this`nextSynId, book
      ensures book.Valid() && View(book) == AfterTaker(old(View(book)), r)
      ensures sink == sink0 + RunFills(old(book.Abs()), TakerEvents(old(View(book)), r))
    {
      sink := sink0;
      if r.cross.Some? {
        AfterOne(book.Abs(), New(TakerOf(View(book), r)));
        var crossId := NewSynId();
        var outcome;
        outcome, sink := book.Submit(Order(crossId, r.cross.value.0, false, 0, r.cross.value.1, 0, true), sink);
      }
    }

    /** Posts a fresh two-sided quote. */
    method PostQuotes(book: OrderBook.Book, r: Round, sink0: seq<Fill>) returns (sink: seq<Fill>)
      requires book.Valid() && FreshRun(book.Abs(), QuoteEvents(View(book), r))
      modifies this, book
      ensures book.Valid() && View(book) == AfterQuotes(old(View(book)), r)
      ensures sink == sink0 + RunFills(old(book.Abs()), QuoteEvents(old(View(book)), r))
    {
      QuotesUnfold(View(book), r, sink0);
      sink := PostQuote(book, Buy, r.bidPx, r.bidSz, sink0);
      sink := PostQuote(book, Sell, r.askPx, r.askSz, sink);
    }

    method PostQuote(book: OrderBook.Book, side: Side, px: int, sz: nat, sink0: seq<Fill>) returns (sink: seq<Fill>)
      requires book.Valid() && SynId(nextSynId) !in book.Abs().Ids()
      modifies this, book
      ensures var o := Order(old(SynId(nextSynId)), side, true, px, sz, 0, true);
        && book.Valid() && View(book) == AfterQuote(old(View(book)), o)
        && sink == sink0 + Submit(old(book.Abs()), o).fills
    {
      var id := NewSynId();
      var outcome;
      outcome, sink := book.Submit(Order(id, side, true, px, sz, 0, true), sink0);
      live := live + [id];
    }
  }

  /** The venue process: its main loop takes commands and participant rounds as they come. */
  class Stage {
    const book: OrderBook.Book
    const participants: Participants
    const feeBps: real
    var reports: seq<Report>
    ghost var used: set<nat>

    constructor (feeBps: real)
      ensures fresh(book) && fresh(participants)
      ensures Valid() && View() == Venue(EMPTY, 1, []) && used == {}
      ensures reports == [] && this.feeBps == feeBps
    {
      book := new OrderBook.Book();
      participants := new Participants();
      this.feeBps := feeBps;
      reports, used := [], {};
    }

    ghost function View(): Venue
      reads this, book, participants
    {
      participants.View(book)
    }

    ghost predicate Valid()
      reads this, book, participants
    {
      book.Valid() && Invariant(View(), used)
    }

    method HandleCommand(c: Command)
      requires Valid() && Issuable(c, used)
      modifies this, book, participants
      ensures Valid() && View() == AfterCommand(old(View()), c) && used == old(used) + {c.orderId}
      ensures reports == old(reports) + StepReports(old(View()), Cmd(c), feeBps)
    {
      hide Invariant, RunFills, FreshRun, TrueFlags, TellsTaker, OrderBook.Book.Valid, OrderBook.Book.Abs;
      CommandKeepsInvariant(View(), used, c);
      assert VenueEvents(View(), Cmd(c)) == c.Events();
      var fills := MatchStrategyOrder(book, c, []);
      assert fills == RunFills(old(book.Abs()), c.Events());
      reports := PublishFills(reports, fills, feeBps);
      used := used + {c.orderId};
    }

    method HandleRound(r: Round)
      requires Valid() && View().next + 3 <= SYNTHETIC_BIT
      modifies this, book, participants
      ensures Valid() && View() == AfterRound(old(View()), r) && used == old(used)
      ensures reports == old(reports) + StepReports(old(View()), Tick(r), feeBps)
    {
      hide Invariant, AfterRound, RoundEvents, RunFills, OrderBook.Book.Valid, OrderBook.Book.Abs;
      RoundKeepsInvariant(View(), used, r);
      assert VenueEvents(View(), Tick(r)) == RoundEvents(View(), r);
      var fills := participants.Act(book, r, [], used);
      assert fills == RunFills(old(book.Abs()), RoundEvents(old(View()), r));
      reports := PublishStrategyMakerFills(reports, fills, feeBps);
    }

    method Handle(i: Input)
      requires Valid() && Issued([i], used) && View().next + 3 * Ticks([i]) <= SYNTHETIC_BIT
      modifies this, book, participants
      ensures Valid() && View() == VenueStep(old(View()), i) && used == Used([i], old(used))
      ensures reports == old(reports) + StepReports(old(View()), i, feeBps)
    {
      assert [i][1..] == [];
      match i
      case Cmd(c) => HandleCommand(c);
      case Tick(r) => HandleRound(r);
    }

    /** The main loop: any interleaving of commands and rounds is the run of the venue. */
    method Serve(inputs: seq<Input>)
      requires Valid() && Issued(inputs, used) && View().next + 3 * Ticks(inputs) <= SYNTHETIC_BIT
      modifies this, book, participants
      ensures Valid() && View() == VenueRun(old(View()), inputs) && used == Used(inputs, old(used))
      ensures Published(old(View()), old(reports), inputs, feeBps, reports)
    {
      hide OrderBook.Book.Abs;
      ghost var v0, r0, u0 := View(), reports, used;
      StartServing(v0, r0, inputs, feeBps, used);
      hide Serving, Issued, Ticks, Used, VenueRun, StepReports, VenueStep, Valid, Published;
      for i := 0 to |inputs|
        invariant Valid()
        invariant Serving(v0, r0, u0, inputs, i, feeBps, View(), reports, used)
      {
        ServingStep(v0, r0, u0, inputs, i, feeBps, View(), reports, used);
        Handle(inputs[i]);
      }
      EndServing(v0, r0, u0, inputs, feeBps, View(), reports, used);
    }
  }

  /** What was published is the run's reports, and they tell every strategy order the truth. */
  ghost predicate Published(v0: Venue, r0: seq<Report>, inputs: seq<Input>, feeBps: real, reports: seq<Report>) {
    && reports == r0 + RunReports(v0, inputs, feeBps)
    && TellsExactly(RunReports(v0, inputs, feeBps), v0, inputs)
  }

  /** The reports name strategy orders only, and tell each exactly what it had executed. */
  ghost predicate TellsExactly(reps: seq<Report>, v: Venue, inputs: seq<Input>) {
    && StrategyOnly(reps)
    && forall id: nat :: id < SYNTHETIC_BIT ==> Told(reps, id) == RunExecuted(v, inputs, id)
  }

  lemma {:induction false} RunTellsExactly(v: Venue, inputs: seq<Input>, used: set<nat>, feeBps: real)
    requires Invariant(v, used) && Issued(inputs, used) && v.next + 3 * Ticks(inputs) <= SYNTHETIC_BIT
    ensures TellsExactly(RunReports(v, inputs, feeBps), v, inputs)
  {
    hide Invariant, RunReports, RunExecuted, StrategyOnly;
    forall id: nat
      ensures StrategyOnly(RunReports(v, inputs, feeBps))
      ensures id < SYNTHETIC_BIT ==> Told(RunReports(v, inputs, feeBps), id) == RunExecuted(v, inputs, id)
    {
      RunTells(v, inputs, used, feeBps, id);
    }
    RunTells(v, inputs, used, feeBps, 0);
  }

  /** Where the main loop stands before its i-th input: what the venue did for the inputs so far, and
      what is known of those to come. */
  ghost predicate Serving(v0: Venue, r0: seq<Report>, u0: set<nat>, inputs: seq<Input>, i: nat, feeBps: real,
                          v: Venue, reports: seq<Report>, used: set<nat>)
  {
    && i <= |inputs|
    && v == VenueRun(v0, inputs[..i]) && reports == r0 + RunReports(v0, inputs[..i], feeBps)
    && Issued(inputs[i..], used) && Used(inputs[i..], used) == Used(inputs, u0)
    && v.next + 3 * Ticks(inputs[i..]) <= SYNTHETIC_BIT
    && TellsExactly(RunReports(v0, inputs, feeBps), v0, inputs)
  }

  lemma {:induction false} StartServing(v0: Venue, r0: seq<Report>, inputs: seq<Input>, feeBps: real, used: set<nat>)
    requires Invariant(v0, used) && Issued(inputs, used) && v0.next + 3 * Ticks(inputs) <= SYNTHETIC_BIT
    ensures Serving(v0, r0, used, inputs, 0, feeBps, v0, r0, used)
  {
    hide Invariant, TellsExactly;
    assert inputs[0..] == inputs;
    RunTellsExactly(v0, inputs, used, feeBps);
  }

  lemma {:induction false} ServingStep(v0: Venue, r0: seq<Report>, u0: set<nat>, inputs: seq<Input>, i: nat,
                                       feeBps: real, v: Venue, reports: seq<Report>, used: set<nat>)
    requires Serving(v0, r0, u0, inputs, i, feeBps, v, reports, used) && i < |inputs|
    ensures Issued([inputs[i]], used) && v.next + 3 * Ticks([inputs[i]]) <= SYNTHETIC_BIT
    ensures Serving(v0, r0, u0, inputs, i + 1, feeBps, VenueStep(v, inputs[i]),
                    reports + StepReports(v, inputs[i], feeBps), Used([inputs[i]], used))
  {
    hide TellsExactly, StepReports;
    var past, rest := inputs[..i], inputs[i..];
    assert inputs[..i + 1] == past + [inputs[i]];
    assert rest[0] == inputs[i] && rest[1..] == inputs[i + 1..] && [inputs[i]][1..] == [];
    RunAppend(v0, past, inputs[i], feeBps);
    Assoc(r0, RunReports(v0, past, feeBps), StepReports(v, inputs[i], feeBps));
    if inputs[i].Tick? { NextAfterRound(v, inputs[i].r); }
  }

  lemma {:induction false} EndServing(v0: Venue, r0: seq<Report>, u0: set<nat>, inputs: seq<Input>, feeBps: real,
                                      v: Venue, reports: seq<Report>, used: set<nat>)
    requires Serving(v0, r0, u0, inputs, |inputs|, feeBps, v, reports, used)
    ensures v == VenueRun(v0, inputs) && Published(v0, r0, inputs, feeBps, reports) && used == Used(inputs, u0)
  {
    assert inputs[..|inputs|] == inputs && inputs[|inputs|..] == [];
  }
}
