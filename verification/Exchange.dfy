/** The venue: strategy commands and rounds of synthetic participants against one book.

    Prices, sizes and coin flips of the participants are inputs, so everything here holds
    for any random numbers the venue may draw. */
module Exchange {
  import opened FlatBook
  import opened BookRuns
  import opened Options

  /** The top bit marks a synthetic id; strategy ids stay below it. */
  const SYNTHETIC_BIT: nat := 0x8000_0000_0000_0000

  /** The top bit or-ed onto a 64-bit counter. */
  function SynId(n: nat): nat {
    if n < SYNTHETIC_BIT then SYNTHETIC_BIT + n else n
  }

  /** The n-th id is new exactly while the counter has not passed the bit. */
  lemma {:induction false} SynIdNewIff(n: nat)
    requires n < 2 * SYNTHETIC_BIT
    ensures n <= SYNTHETIC_BIT <==> forall k :: 1 <= k < n ==> SynId(k) != SynId(n)
  {
    if n > SYNTHETIC_BIT { assert SynId(n - SYNTHETIC_BIT) == SynId(n); }
  }

  /** An order command as it comes off the wire; bytes that only matter to others are left out. */
  datatype Command = Command(orderId: nat, side: nat, orderType: nat, action: nat,
                             priceTicks: int, quantity: nat, originTs: nat)
  {
    function Order(): FlatBook.Order {
      FlatBook.Order(orderId, SideFromU8(side), orderType == 1, priceTicks, quantity, originTs, false)
    }

    /** Action 1 cancels, action 2 cancels and replaces, any other is a new order. */
    function Events(): seq<Event> {
      if action == 1 then [Pull(orderId)]
      else if action == 2 then [Pull(orderId), New(Order())]
      else [New(Order())]
    }
  }

  /** The choices of one participant round: two quotes, perhaps a cancel, perhaps a taker. */
  datatype Round = Round(bidPx: int, bidSz: nat, askPx: int, askSz: nat,
                         cancel: Option<nat>, cross: Option<(Side, nat)>)

  /** What the venue is between two inputs. */
  datatype Venue = Venue(book: Ladder, next: nat, live: seq<nat>)

  function SwapRemove(s: seq<nat>, i: nat): seq<nat>
    requires i < |s|
  {
    s[i := s[|s| - 1]][..|s| - 1]
  }

  function Retain(s: seq<nat>, keep: set<nat>): seq<nat> {
    if s == [] then [] else (if s[0] in keep then [s[0]] else []) + Retain(s[1..], keep)
  }

  function BidOf(v: Venue, r: Round): Order {
    Order(SynId(v.next), Buy, true, r.bidPx, r.bidSz, 0, true)
  }

  function AskOf(v: Venue, r: Round): Order {
    Order(SynId(v.next + 1), Sell, true, r.askPx, r.askSz, 0, true)
  }

  function TakerOf(v: Venue, r: Round): Order
    requires r.cross.Some?
  {
    Order(SynId(v.next), r.cross.value.0, false, 0, r.cross.value.1, 0, true)
  }

  function QuoteEvents(v: Venue, r: Round): seq<Event> {
    [New(BidOf(v, r)), New(AskOf(v, r))]
  }

  function CancelEvents(v: Venue, r: Round): seq<Event> {
    if r.cancel.Some? && v.live != [] then [Pull(v.live[r.cancel.value % |v.live|])] else []
  }

  function TakerEvents(v: Venue, r: Round): seq<Event> {
    if r.cross.Some? then [New(TakerOf(v, r))] else []
  }

  /** The stages of a round: after the two quotes, after the cancel, after the taker, pruned. */
  function AfterQuotes(v: Venue, r: Round): Venue {
    Venue(After(v.book, QuoteEvents(v, r)), v.next + 2, v.live + [SynId(v.next), SynId(v.next + 1)])
  }

  function AfterCancel(v: Venue, r: Round): Venue {
    Venue(After(v.book, CancelEvents(v, r)), v.next,
          if r.cancel.Some? && v.live != [] then SwapRemove(v.live, r.cancel.value % |v.live|) else v.live)
  }

  function AfterTaker(v: Venue, r: Round): Venue {
    Venue(After(v.book, TakerEvents(v, r)), v.next + |TakerEvents(v, r)|, v.live)
  }

  function Pruned(v: Venue): Venue {
    v.(live := Retain(v.live, v.book.Ids()))
  }

  function AfterRound(v: Venue, r: Round): Venue {
    Pruned(AfterTaker(AfterCancel(AfterQuotes(v, r), r), r))
  }

  /** The book events of a round, in order. */
  function RoundEvents(v: Venue, r: Round): seq<Event> {
    var v1 := AfterQuotes(v, r);
    QuoteEvents(v, r) + CancelEvents(v1, r) + TakerEvents(AfterCancel(v1, r), r)
  }

  function AfterCommand(v: Venue, c: Command): Venue {
    v.(book := After(v.book, c.Events()))
  }

  // ------------------------------------------------------------ the venue invariant

  predicate Distinct(s: seq<nat>) {
    forall i, j :: 0 <= i < j < |s| ==> s[i] != s[j]
  }

  /** Every resting order is flagged synthetic exactly when its id says so. */
  predicate Flagged(s: seq<Entry>) {
    s != [] ==> (s[0].order.isSynthetic <==> s[0].order.orderId >= SYNTHETIC_BIT) && Flagged(s[1..])
  }

  /** The book is valid; live ids are distinct synthetic ids already given out; every resting
      order is a live synthetic one or carries an id the strategy has used. */
  predicate Invariant(v: Venue, used: set<nat>) {
    && Valid(v.book) && Flagged(v.book.bids) && Flagged(v.book.asks)
    && v.next <= SYNTHETIC_BIT
    && Distinct(v.live)
    && (forall id :: id in v.live ==> SYNTHETIC_BIT <= id < SYNTHETIC_BIT + v.next)
    && (forall id :: id in used ==> id < SYNTHETIC_BIT)
    && (forall id :: id in v.book.Ids() ==> id in v.live || id in used)
  }

  predicate OwnFlag(ev: Event) {
    ev.New? ==> (ev.o.isSynthetic <==> ev.o.id >= SYNTHETIC_BIT)
  }

  lemma {:induction false} TakeFlagged(o: Order, s: seq<Entry>, left: nat)
    requires Flagged(s)
    ensures Flagged(Take(o, s, left).rest)
  {
    if left == 0 || s == [] || !Acceptable(o, s[0].px) {
    } else {
      var q := Min(left, s[0].order.remaining);
      if q < s[0].order.remaining {
        assert Take(o, s, left).rest[1..] == s[1..];
      } else {
        TakeFlagged(o, s[1..], left - q);
      }
    }
  }

  lemma {:induction false} InsertFlagged(side: Side, s: seq<Entry>, e: Entry)
    requires Flagged(s) && (e.order.isSynthetic <==> e.order.orderId >= SYNTHETIC_BIT)
    ensures Flagged(Insert(side, s, e))
  {
    if s == [] || Better(side, e.px, s[0].px) {
      assert ([e] + s)[1..] == s;
    } else {
      InsertFlagged(side, s[1..], e);
      assert ([s[0]] + Insert(side, s[1..], e))[1..] == Insert(side, s[1..], e);
    }
  }

  lemma {:induction false} RemoveFlagged(s: seq<Entry>, id: nat)
    requires Flagged(s)
    ensures Flagged(Remove(s, id))
  {
    if s != [] {
      RemoveFlagged(s[1..], id);
      assert ([s[0]] + Remove(s[1..], id))[1..] == Remove(s[1..], id);
    }
  }

  lemma {:induction false} StepFlagged(b: Ladder, ev: Event)
    requires Flagged(b.bids) && Flagged(b.asks) && OwnFlag(ev)
    ensures var b' := Step(b, ev).book; Flagged(b'.bids) && Flagged(b'.asks)
  {
    match ev
    case New(o) =>
      var opp := o.side.Opposite();
      TakeFlagged(o, b.On(opp), o.quantity);
      var m := Take(o, b.On(opp), o.quantity);
      InsertFlagged(o.side, b.On(o.side), Entry(o.limitPx, RestingOrder(o.id, m.left, o.isSynthetic)));
    case Pull(id) =>
      RemoveFlagged(b.bids, id);
      RemoveFlagged(b.asks, id);
  }

  /** What one fresh event does to the resting ids. */
  lemma {:induction false} StepIds(b: Ladder, ev: Event)
    requires Valid(b) && (ev.New? ==> ev.o.id !in b.Ids())
    ensures var b' := Step(b, ev).book;
      && (ev.New? ==> b'.Ids() <= b.Ids() + {ev.o.id})
      && (ev.New? && !ev.o.isLimit ==> b'.Ids() <= b.Ids())
      && (ev.Pull? ==> b'.Ids() == b.Ids() - {ev.id})
  {
    match ev
    case New(o) => SubmitValid(b, o);
    case Pull(id) => CancelValid(b, id);
  }

  lemma {:induction false} StepKeeps(b: Ladder, ev: Event)
    requires Valid(b) && Flagged(b.bids) && Flagged(b.asks)
    requires OwnFlag(ev) && (ev.New? ==> ev.o.id !in b.Ids())
    ensures var b' := Step(b, ev).book; Valid(b') && Flagged(b'.bids) && Flagged(b'.asks)
  {
    StepValid(b, ev);
    StepFlagged(b, ev);
  }

  lemma {:induction false} AfterOne(b: Ladder, ev: Event)
    ensures After(b, [ev]) == Step(b, ev).book && RunFills(b, [ev]) == Step(b, ev).fills
  {
    assert [ev][1..] == [];
  }

  lemma {:induction false} AfterTwo(b: Ladder, ev: Event, fv: Event)
    ensures After(b, [ev, fv]) == Step(Step(b, ev).book, fv).book
    ensures RunFills(b, [ev, fv]) == Step(b, ev).fills + Step(Step(b, ev).book, fv).fills
  {
    assert [ev, fv][1..] == [fv];
    AfterOne(Step(b, ev).book, fv);
  }

  /** A command may be issued when its id is a strategy id and, for a new order, unused. */
  predicate Issuable(c: Command, used: set<nat>) {
    && c.orderId < SYNTHETIC_BIT
    && (c.action != 1 && c.action != 2 ==> c.orderId !in used)
  }

  /** A strategy command keeps the invariant, and each of its submissions has a fresh id. */
  lemma {:induction false} CommandKeepsInvariant(v: Venue, used: set<nat>, c: Command)
    requires Invariant(v, used) && Issuable(c, used)
    ensures FreshRun(v.book, c.Events())
    ensures Invariant(AfterCommand(v, c), used + {c.orderId})
  {
    var b := v.book;
    if c.action == 1 {
      AfterOne(b, Pull(c.orderId));
      StepKeeps(b, Pull(c.orderId));
      StepIds(b, Pull(c.orderId));
    } else if c.action == 2 {
      var b1 := Step(b, Pull(c.orderId)).book;
      StepKeeps(b, Pull(c.orderId));
      StepIds(b, Pull(c.orderId));
      AfterTwo(b, Pull(c.orderId), New(c.Order()));
      StepKeeps(b1, New(c.Order()));
      StepIds(b1, New(c.Order()));
      assert c.Events()[1..] == [New(c.Order())];
      FreshOne(b1, New(c.Order()));
    } else {
      AfterOne(b, New(c.Order()));
      StepKeeps(b, New(c.Order()));
      StepIds(b, New(c.Order()));
      FreshOne(b, New(c.Order()));
    }
  }

  lemma {:induction false} FreshOne(b: Ladder, ev: Event)
    ensures FreshRun(b, [ev]) <==> (ev.New? ==> ev.o.id !in b.Ids())
  {
    assert [ev][1..] == [];
  }

  /** A command's events, spelt out. */
  lemma {:induction false} CommandUnfolds(b: Ladder, c: Command)
    ensures c.action == 1 ==> After(b, c.Events()) == Cancel(b, c.orderId).book && RunFills(b, c.Events()) == []
    ensures c.action == 2 ==>
              var b1 := Cancel(b, c.orderId).book; var r := Submit(b1, c.Order());
              && After(b, c.Events()) == r.book && RunFills(b, c.Events()) == r.fills
              && (FreshRun(b, c.Events()) <==> c.orderId !in b1.Ids())
    ensures c.action != 1 && c.action != 2 ==>
              var r := Submit(b, c.Order());
              && After(b, c.Events()) == r.book && RunFills(b, c.Events()) == r.fills
              && (FreshRun(b, c.Events()) <==> c.orderId !in b.Ids())
  {
    if c.action == 1 {
      AfterOne(b, Pull(c.orderId));
    } else if c.action == 2 {
      AfterTwo(b, Pull(c.orderId), New(c.Order()));
      assert c.Events()[1..] == [New(c.Order())];
      FreshOne(Cancel(b, c.orderId).book, New(c.Order()));
      assert Cancel(b, c.orderId).fills == [];
    } else {
      AfterOne(b, New(c.Order()));
      FreshOne(b, New(c.Order()));
    }
  }

  lemma {:induction false} FreshAppend(b: Ladder, evs: seq<Event>, more: seq<Event>)
    requires FreshRun(b, evs) && FreshRun(After(b, evs), more)
    ensures FreshRun(b, evs + more)
    decreases |evs|
  {
    if evs == [] {
      assert evs + more == more;
    } else {
      assert (evs + more)[1..] == evs[1..] + more;
      FreshAppend(Step(b, evs[0]).book, evs[1..], more);
    }
  }

  lemma {:induction false} RetainIsFilter(s: seq<nat>, keep: set<nat>)
    requires Distinct(s)
    ensures Distinct(Retain(s, keep))
    ensures forall id :: id in Retain(s, keep) <==> id in s && id in keep
  {
    if s != [] {
      RetainIsFilter(s[1..], keep);
      var t := Retain(s[1..], keep);
      var r := Retain(s, keep);
      assert forall i :: 0 < i < |s| ==> s[i] == s[1..][i - 1];
      assert s[0] !in s[1..];
      assert r == if s[0] in keep then [s[0]] + t else t;
    }
  }

  lemma {:induction false} SwapRemoveDropsOne(s: seq<nat>, i: nat)
    requires Distinct(s) && i < |s|
    ensures Distinct(SwapRemove(s, i))
    ensures forall id :: id in SwapRemove(s, i) <==> id in s && id != s[i]
  {
    var t := SwapRemove(s, i);
    assert forall j :: 0 <= j < |t| ==> t[j] == if j == i then s[|s| - 1] else s[j];
    forall id | id in s && id != s[i] ensures id in t {
      var j :| 0 <= j < |s| && s[j] == id;
      assert t[if j == |s| - 1 then i else j] == id;
    }
  }

  /** Posting a quote: its id is new to the book, and the invariant holds with it in `live`. */
  lemma {:induction false} QuoteKeeps(v: Venue, used: set<nat>, o: Order)
    requires Invariant(v, used) && v.next < SYNTHETIC_BIT && o.id == SynId(v.next) && o.isSynthetic
    ensures o.id !in v.book.Ids()
    ensures Invariant(AfterQuote(v, o), used)
  {
    StepKeeps(v.book, New(o));
    StepIds(v.book, New(o));
    var live := v.live + [o.id];
    assert forall i :: 0 <= i < |live| ==> live[i] == if i < |v.live| then v.live[i] else o.id;
    assert forall i :: 0 <= i < |v.live| ==> v.live[i] in v.live;
  }

  lemma {:induction false} QuotesKeep(v: Venue, used: set<nat>, r: Round)
    requires Invariant(v, used) && v.next + 2 <= SYNTHETIC_BIT
    ensures Invariant(AfterQuotes(v, r), used) && FreshRun(v.book, QuoteEvents(v, r))
  {
    var o1, o2 := BidOf(v, r), AskOf(v, r);
    QuoteKeeps(v, used, o1);
    var u := AfterQuote(v, o1);
    QuoteKeeps(u, used, o2);
    QuotesUnfold(v, r, []);
    assert QuoteEvents(v, r)[1..] == [New(o2)];
    FreshOne(u.book, New(o2));
  }

  /** The venue after one quote. */
  function AfterQuote(v: Venue, o: Order): Venue {
    Venue(Submit(v.book, o).book, v.next + 1, v.live + [o.id])
  }

  /** The two quotes, one after the other, with their fills appended to a sink. */
  lemma {:induction false} QuotesUnfold(v: Venue, r: Round, sink: seq<Fill>)
    ensures var bid, ask := BidOf(v, r), AskOf(v, r);
      var v1 := AfterQuote(v, bid);
      && AfterQuotes(v, r) == AfterQuote(v1, ask)
      && sink + RunFills(v.book, QuoteEvents(v, r)) == sink + Submit(v.book, bid).fills + Submit(v1.book, ask).fills
      && (FreshRun(v.book, QuoteEvents(v, r)) ==> bid.id !in v.book.Ids() && ask.id !in v1.book.Ids())
  {
    var bid, ask := BidOf(v, r), AskOf(v, r);
    AfterTwo(v.book, New(bid), New(ask));
    assert QuoteEvents(v, r)[1..] == [New(ask)];
    FreshOne(Submit(v.book, bid).book, New(ask));
    assert v.live + [bid.id] + [ask.id] == v.live + [bid.id, ask.id];
  }

  /** The fills of a round are those of its quotes and of its taker. */
  lemma {:induction false} RoundFills(v: Venue, r: Round)
    ensures var v1 := AfterQuotes(v, r); var v2 := AfterCancel(v1, r);
      && After(v.book, RoundEvents(v, r)) == AfterRound(v, r).book
      && RunFills(v.book, RoundEvents(v, r))
         == RunFills(v.book, QuoteEvents(v, r)) + RunFills(v2.book, TakerEvents(v2, r))
  {
    var v1 := AfterQuotes(v, r);
    var v2 := AfterCancel(v1, r);
    AfterAppend(v.book, QuoteEvents(v, r), CancelEvents(v1, r));
    AfterAppend(v.book, QuoteEvents(v, r) + CancelEvents(v1, r), TakerEvents(v2, r));
    CancelHasNoFills(v1, r);
  }

  lemma {:induction false} RoundUnfold(v: Venue, r: Round, sink: seq<Fill>)
    ensures var v2 := AfterCancel(AfterQuotes(v, r), r);
      sink + RunFills(v.book, RoundEvents(v, r))
      == sink + RunFills(v.book, QuoteEvents(v, r)) + RunFills(v2.book, TakerEvents(v2, r))
  {
    RoundFills(v, r);
  }

  lemma {:induction false} CancelHasNoFills(v: Venue, r: Round)
    ensures RunFills(v.book, CancelEvents(v, r)) == []
  {
    if r.cancel.Some? && v.live != [] { AfterOne(v.book, CancelEvents(v, r)[0]); }
  }

  lemma {:induction false} CancelKeeps(v: Venue, used: set<nat>, r: Round)
    requires Invariant(v, used)
    ensures Invariant(AfterCancel(v, r), used) && FreshRun(v.book, CancelEvents(v, r))
  {
    if r.cancel.Some? && v.live != [] {
      var i := r.cancel.value % |v.live|;
      StepKeeps(v.book, Pull(v.live[i]));
      StepIds(v.book, Pull(v.live[i]));
      SwapRemoveDropsOne(v.live, i);
      AfterOne(v.book, Pull(v.live[i]));
    }
  }

  /** A synthetic taker never rests, so it needs no place in `live`. */
  lemma {:induction false} TakerKeeps(v: Venue, used: set<nat>, r: Round)
    requires Invariant(v, used) && v.next < SYNTHETIC_BIT
    ensures Invariant(AfterTaker(v, r), used) && FreshRun(v.book, TakerEvents(v, r))
  {
    if r.cross.Some? {
      StepKeeps(v.book, New(TakerOf(v, r)));
      StepIds(v.book, New(TakerOf(v, r)));
      AfterOne(v.book, New(TakerOf(v, r)));
    }
  }

  /** Pruning leaves in `live` exactly the synthetic orders that rest. */
  lemma {:induction false} PruneKeeps(v: Venue, used: set<nat>)
    requires Invariant(v, used)
    ensures var pruned := v.(live := Retain(v.live, v.book.Ids()));
      && Invariant(pruned, used)
      && (forall id :: id in pruned.live <==> id in v.book.Ids() && id >= SYNTHETIC_BIT)
  {
    RetainIsFilter(v.live, v.book.Ids());
  }

  /** A participant round keeps the invariant at every stage, each of its submissions has an
      id that is not resting, and afterwards `live` is exactly the set of resting synthetic
      orders. */
  lemma {:induction false} RoundKeepsInvariant(v: Venue, used: set<nat>, r: Round)
    requires Invariant(v, used) && v.next + 3 <= SYNTHETIC_BIT
    ensures var v1 := AfterQuotes(v, r); var v2 := AfterCancel(v1, r); var v3 := AfterTaker(v2, r);
      Invariant(v1, used) && Invariant(v2, used) && Invariant(v3, used)
    ensures Invariant(AfterRound(v, r), used)
    ensures forall id :: id in AfterRound(v, r).live <==> id in AfterRound(v, r).book.Ids() && id >= SYNTHETIC_BIT
    ensures FreshRun(v.book, RoundEvents(v, r))
    ensures AfterRound(v, r).book == After(v.book, RoundEvents(v, r))
  {
    var v1 := AfterQuotes(v, r);
    var v2 := AfterCancel(v1, r);
    QuotesKeep(v, used, r);
    CancelKeeps(v1, used, r);
    TakerKeeps(v2, used, r);
    PruneKeeps(AfterTaker(v2, r), used);
    RoundFills(v, r);
    FreshAppend(v.book, QuoteEvents(v, r), CancelEvents(v1, r));
    AfterAppend(v.book, QuoteEvents(v, r), CancelEvents(v1, r));
    FreshAppend(v.book, QuoteEvents(v, r) + CancelEvents(v1, r), TakerEvents(v2, r));
  }

  // ------------------------------------------------------------ whole runs of the venue

  datatype Input = Cmd(c: Command) | Tick(r: Round)

  function VenueStep(v: Venue, i: Input): Venue {
    match i
    case Cmd(c) => AfterCommand(v, c)
    case Tick(r) => AfterRound(v, r)
  }

  function VenueEvents(v: Venue, i: Input): seq<Event> {
    match i
    case Cmd(c) => c.Events()
    case Tick(r) => RoundEvents(v, r)
  }

  function VenueRun(v: Venue, inputs: seq<Input>): Venue
    decreases |inputs|
  {
    if inputs == [] then v else VenueRun(VenueStep(v, inputs[0]), inputs[1..])
  }

  function AllEvents(v: Venue, inputs: seq<Input>): seq<Event>
    decreases |inputs|
  {
    if inputs == [] then [] else VenueEvents(v, inputs[0]) + AllEvents(VenueStep(v, inputs[0]), inputs[1..])
  }

  /** The strategy numbers its new orders afresh; it may reuse an id only to cancel or replace. */
  predicate Issued(inputs: seq<Input>, used: set<nat>) {
    inputs != [] ==>
      match inputs[0]
      case Cmd(c) => Issuable(c, used) && Issued(inputs[1..], used + {c.orderId})
      case Tick(r) => Issued(inputs[1..], used)
  }

  function Used(inputs: seq<Input>, used: set<nat>): set<nat> {
    if inputs == [] then used
    else Used(inputs[1..], if inputs[0].Cmd? then used + {inputs[0].c.orderId} else used)
  }

  function Ticks(inputs: seq<Input>): nat {
    if inputs == [] then 0 else (if inputs[0].Tick? then 1 else 0) + Ticks(inputs[1..])
  }

  lemma {:induction false} NextAfterRound(v: Venue, r: Round)
    ensures v.next + 2 <= AfterRound(v, r).next <= v.next + 3
  {
  }

  /** In every run of commands and rounds, for as long as synthetic ids last, the invariant
      holds and every submission the book ever sees carries an id that is not resting. */
  lemma {:induction false} RunKeepsInvariant(v: Venue, used: set<nat>, inputs: seq<Input>)
    requires Invariant(v, used) && Issued(inputs, used)
    requires v.next + 3 * Ticks(inputs) <= SYNTHETIC_BIT
    ensures Invariant(VenueRun(v, inputs), Used(inputs, used))
    ensures FreshRun(v.book, AllEvents(v, inputs))
    ensures VenueRun(v, inputs).book == After(v.book, AllEvents(v, inputs))
    decreases |inputs|
  {
    if inputs != [] {
      var evs, v', rest := VenueEvents(v, inputs[0]), VenueStep(v, inputs[0]), inputs[1..];
      match inputs[0] {
        case Cmd(c) =>
          CommandKeepsInvariant(v, used, c);
          RunKeepsInvariant(v', used + {c.orderId}, rest);
        case Tick(r) =>
          RoundKeepsInvariant(v, used, r);
          NextAfterRound(v, r);
          RunKeepsInvariant(v', used, rest);
      }
      FreshAppend(v.book, evs, AllEvents(v', rest));
      AfterAppend(v.book, evs, AllEvents(v', rest));
    }
  }
}
