/** The stack machine: its instructions, what a program means on a price history, and the
    streaming virtual machine that computes exactly that. */
module Bytecode {
  import opened Indicators
  import opened Rings
  import opened Sequences

  const STACK_CAP: nat := 32

  const MOMENTUM_BPS_FULL_SCALE := 25.0

  datatype Op =
    | PushPrice
    | PushConst(c: real)
    | Ema(slot: nat, period: nat)
    | Momentum(slot: nat, lookback: nat)
    | Reversion(slot: nat, window: nat)
    | Gt | Lt | Ge | Le | Eq
    | And | Or | Not
    | Buy | Sell
  {
    predicate IsStateful() {
      Ema? || Momentum? || Reversion?
    }

    predicate IsBinary() {
      Gt? || Lt? || Ge? || Le? || Eq? || And? || Or?
    }

    /** A zero window has no cell to write to. */
    predicate Runs() {
      Reversion? ==> window >= 1
    }
  }

  datatype VmDecision = BuyAt(strength: real) | SellAt(strength: real) | Hold

  function BoolReal(b: bool): real {
    if b then 1.0 else 0.0
  }

  function Abs(x: real): real {
    if x < 0.0 then -x else x
  }

  // ------------------------------------------------------------ what a program means

  /** The reading of an indicator op after a history: it does not depend on the slot. */
  function Reading(sqrt: SqrtFn, op: Op, hist: seq<real>): real
    requires op.IsStateful() && op.Runs()
  {
    match op
    case Ema(_, period) => EmaOf(period, hist)
    case Momentum(_, lookback) => MomentumOf(lookback, MOMENTUM_BPS_FULL_SCALE, hist)
    case Reversion(_, window) => ReversionOf(window, sqrt, hist)
  }

  /** The value a two-operand op pushes. */
  function Binary(op: Op, a: real, b: real): real
    requires op.IsBinary()
  {
    match op
    case Gt => BoolReal(a > b)
    case Lt => BoolReal(a < b)
    case Ge => BoolReal(a >= b)
    case Le => BoolReal(a <= b)
    case Eq => BoolReal(Abs(a - b) < 0.0000000001)
    case And => BoolReal(a > 0.0 && b > 0.0)
    case Or => BoolReal(a > 0.0 || b > 0.0)
  }

  datatype Machine = Machine(cells: seq<real>, decision: VmDecision) {
    /** A full stack drops the value. */
    function Push(v: real): Machine {
      if |cells| < STACK_CAP then this.(cells := cells + [v]) else this
    }

    /** An empty stack yields zero. */
    function Top(): real {
      if |cells| > 0 then cells[|cells| - 1] else 0.0
    }

    function Drop(): Machine {
      if |cells| > 0 then this.(cells := cells[..|cells| - 1]) else this
    }

    function Decide(d: VmDecision): Machine {
      if Top() > 0.0 then Drop().(decision := d) else Drop()
    }
  }

  const RESET := Machine([], Hold)

  function ExecOp(sqrt: SqrtFn, op: Op, m: Machine, hist: seq<real>): Machine
    requires hist != [] && op.Runs()
  {
    match op
    case PushPrice => m.Push(Last(hist))
    case PushConst(c) => m.Push(c)
    case Ema(_, _) => m.Push(Reading(sqrt, op, hist))
    case Momentum(_, _) => m.Push(Reading(sqrt, op, hist))
    case Reversion(_, _) => m.Push(Reading(sqrt, op, hist))
    case Not => m.Drop().Push(BoolReal(m.Top() <= 0.0))
    case Buy => m.Decide(BuyAt(m.Top()))
    case Sell => m.Decide(SellAt(m.Top()))
    case _ => m.Drop().Drop().Push(Binary(op, m.Drop().Top(), m.Top()))
  }

  predicate AllRun(prog: seq<Op>) {
    forall i :: 0 <= i < |prog| ==> prog[i].Runs()
  }

  /** The whole straight-line program on one tick. */
  function Exec(sqrt: SqrtFn, prog: seq<Op>, m: Machine, hist: seq<real>): Machine
    requires hist != [] && AllRun(prog)
  {
    if prog == [] then m
    else Exec(sqrt, prog[1..], ExecOp(sqrt, prog[0], m, hist), hist)
  }

  lemma {:induction false} ExecAppend(sqrt: SqrtFn, p: seq<Op>, q: seq<Op>, m: Machine, hist: seq<real>)
    requires hist != [] && AllRun(p) && AllRun(q)
    ensures AllRun(p + q)
    ensures Exec(sqrt, p + q, m, hist) == Exec(sqrt, q, Exec(sqrt, p, m, hist), hist)
    decreases |p|
  {
    if p == [] {
      assert p + q == q;
    } else {
      assert (p + q)[1..] == p[1..] + q;
      ExecAppend(sqrt, p[1..], q, ExecOp(sqrt, p[0], m, hist), hist);
    }
  }

  // ------------------------------------------------------------ what each op does to the cells

  /** The cells `rest` with one truth value on top, and nothing decided. */
  ghost predicate Judges(m: Machine, rest: seq<real>, truth: bool, d: VmDecision) {
    m == Machine(rest + [if truth then 1.0 else 0.0], d)
  }

  lemma {:induction false} TopTwo(rest: seq<real>, a: real, b: real, d: VmDecision)
    ensures var m := Machine(rest + [a, b], d);
      && m.Top() == b && m.Drop() == Machine(rest + [a], d)
      && m.Drop().Top() == a && m.Drop().Drop() == Machine(rest, d)
  {
    var m := Machine(rest + [a, b], d);
    assert m.Drop().cells == rest + [a];
    assert m.Drop().Drop().cells == rest;
  }

  /** What a two-operand op asks of its operands; equality allows a tenth of a billionth. */
  predicate Asks(op: Op, a: real, b: real)
    requires op.IsBinary()
  {
    match op
    case Gt => a > b
    case Lt => a < b
    case Ge => a >= b
    case Le => a <= b
    case Eq => -0.0000000001 < a - b < 0.0000000001
    case And => a > 0.0 && b > 0.0
    case Or => a > 0.0 || b > 0.0
  }

  lemma {:induction false} BinaryAsks(op: Op, a: real, b: real)
    requires op.IsBinary()
    ensures Binary(op, a, b) == if Asks(op, a, b) then 1.0 else 0.0
  {
  }

  /** With b on top of a: what every op on them leaves.  A truth value is one or zero; a signal op fires
      on a positive cell and takes it off the stack either way. */
  lemma {:induction false} OpJudges(sqrt: SqrtFn, op: Op, rest: seq<real>, a: real, b: real, d: VmDecision,
                                    hist: seq<real>)
    requires hist != [] && |rest| + 2 <= STACK_CAP && op.Runs()
    ensures var m := Machine(rest + [a, b], d);
      && (op.IsBinary() ==> Judges(ExecOp(sqrt, op, m, hist), rest, Asks(op, a, b), d))
      && (op == Not ==> Judges(ExecOp(sqrt, op, m, hist), rest + [a], b <= 0.0, d))
      && (op == Buy ==> ExecOp(sqrt, op, m, hist) == Machine(rest + [a], if b > 0.0 then BuyAt(b) else d))
      && (op == Sell ==> ExecOp(sqrt, op, m, hist) == Machine(rest + [a], if b > 0.0 then SellAt(b) else d))
  {
    hide Binary, Asks, Reading;
    TopTwo(rest, a, b, d);
    if op.IsBinary() { BinaryAsks(op, a, b); }
  }

  /** Negation turns each comparison into its opposite. */
  lemma {:induction false} NotOpposes(sqrt: SqrtFn, rest: seq<real>, a: real, b: real, d: VmDecision, hist: seq<real>)
    requires hist != [] && |rest| + 2 <= STACK_CAP
    ensures var m := Machine(rest + [a, b], d);
      && ExecOp(sqrt, Not, ExecOp(sqrt, Gt, m, hist), hist) == ExecOp(sqrt, Le, m, hist)
      && ExecOp(sqrt, Not, ExecOp(sqrt, Lt, m, hist), hist) == ExecOp(sqrt, Ge, m, hist)
      && ExecOp(sqrt, Not, ExecOp(sqrt, Ge, m, hist), hist) == ExecOp(sqrt, Lt, m, hist)
      && ExecOp(sqrt, Not, ExecOp(sqrt, Le, m, hist), hist) == ExecOp(sqrt, Gt, m, hist)
  {
    hide ExecOp;
    OpJudges(sqrt, Gt, rest, a, b, d, hist);
    OpJudges(sqrt, Lt, rest, a, b, d, hist);
    OpJudges(sqrt, Ge, rest, a, b, d, hist);
    OpJudges(sqrt, Le, rest, a, b, d, hist);
    NotFlips(sqrt, rest, true, d, hist);
    NotFlips(sqrt, rest, false, d, hist);
  }

  lemma {:induction false} NotFlips(sqrt: SqrtFn, rest: seq<real>, truth: bool, d: VmDecision, hist: seq<real>)
    requires hist != [] && |rest| < STACK_CAP
    ensures Judges(ExecOp(sqrt, Not, Machine(rest + [if truth then 1.0 else 0.0], d), hist), rest, !truth, d)
  {
    var m := Machine(rest + [if truth then 1.0 else 0.0], d);
    assert m.Drop().cells == rest;
  }

  // ------------------------------------------------------------ slots

  /** The stateful ops of a program, in order: one state cell each. */
  function StatefulOps(prog: seq<Op>): seq<Op> {
    if prog == [] then []
    else (if prog[0].IsStateful() then [prog[0]] else []) + StatefulOps(prog[1..])
  }

  /** The stateful ops carry the slots k, k + 1, k + 2, and so on. */
  predicate SlotsFrom(prog: seq<Op>, k: nat) {
    prog != [] ==>
      if prog[0].IsStateful() then prog[0].slot == k && SlotsFrom(prog[1..], k + 1)
      else SlotsFrom(prog[1..], k)
  }

  /** Slot agreement, spelt out: the k-th stateful op carries slot k. */
  lemma {:induction false} SlotIsPosition(prog: seq<Op>, k: nat, i: nat)
    requires SlotsFrom(prog, k) && i < |StatefulOps(prog)|
    ensures StatefulOps(prog)[i].IsStateful() && StatefulOps(prog)[i].slot == k + i
  {
    if prog[0].IsStateful() {
      if i > 0 { SlotIsPosition(prog[1..], k + 1, i - 1); }
    } else {
      SlotIsPosition(prog[1..], k, i);
    }
  }

  lemma {:induction false} StatefulOpsAppend(p: seq<Op>, q: seq<Op>)
    ensures StatefulOps(p + q) == StatefulOps(p) + StatefulOps(q)
  {
    if p == [] {
      assert p + q == q;
    } else {
      assert (p + q)[1..] == p[1..] + q;
      StatefulOpsAppend(p[1..], q);
      Assoc(if p[0].IsStateful() then [p[0]] else [], StatefulOps(p[1..]), StatefulOps(q));
    }
  }

  lemma {:induction false} SlotsFromAppend(p: seq<Op>, q: seq<Op>, k: nat)
    ensures SlotsFrom(p + q, k) <==> SlotsFrom(p, k) && SlotsFrom(q, k + |StatefulOps(p)|)
    decreases |p|
  {
    if p == [] {
      assert p + q == q;
    } else {
      assert (p + q)[1..] == p[1..] + q;
      SlotsFromAppend(p[1..], q, if p[0].IsStateful() then k + 1 else k);
    }
  }

  /** Where execution stands before the i-th op: k stateful ops are behind it. */
  ghost predicate SlotsAt(prog: seq<Op>, i: nat, k: nat) {
    && i <= |prog| && k <= |StatefulOps(prog)|
    && SlotsFrom(prog[i..], k) && StatefulOps(prog[i..]) == StatefulOps(prog)[k..]
  }

  lemma {:induction false} SlotsStep(prog: seq<Op>, i: nat, k: nat)
    requires SlotsAt(prog, i, k) && i < |prog|
    ensures prog[i].IsStateful() ==>
              k < |StatefulOps(prog)| && StatefulOps(prog)[k] == prog[i] && prog[i].slot == k
    ensures SlotsAt(prog, i + 1, if prog[i].IsStateful() then k + 1 else k)
  {
    var rest := prog[i..];
    assert rest[0] == prog[i] && rest[1..] == prog[i + 1..];
    if prog[i].IsStateful() {
      assert StatefulOps(rest)[0] == prog[i];
      assert StatefulOps(prog)[k..][1..] == StatefulOps(prog)[k + 1..];
    }
  }

  // ------------------------------------------------------------ indicator state

  /** State carried across ticks, one per stateful op. */
  datatype IndState =
    | EmaState(alpha: real, value: real, init: bool)
    | MomentumState(buf: array<real>, filled: nat, head: nat, lookback: nat)
    | ReversionState(buf: array<real>, filled: nat, head: nat, window: nat, sum: real, sumSq: real)

  function BufOf(s: IndState): set<array<real>> {
    if s.EmaState? then {} else {s.buf}
  }

  /** The state is the one its op has after the history. */
  ghost predicate Holds(s: IndState, op: Op, hist: seq<real>)
    reads BufOf(s)
  {
    match op
    case Ema(_, period) =>
      && s.EmaState? && s.alpha == Alpha(period)
      && (s.init <==> hist != []) && s.value == EmaOf(period, hist)
    case Momentum(_, lookback) =>
      && s.MomentumState? && s.lookback == lookback && s.buf.Length == lookback + 1
      && RingHolds(s.buf[..], s.filled, s.head, hist)
    case Reversion(_, window) =>
      && s.ReversionState? && s.window == window && s.buf.Length == window
      && RingHolds(s.buf[..], s.filled, s.head, hist)
      && s.sum == Sum(Recent(hist, window)) && s.sumSq == SumSq(Recent(hist, window))
    case _ => false
  }

  /** Fresh state for a stateful op. */
  method ForOp(op: Op) returns (s: IndState)
    requires op.IsStateful() && op.Runs()
    ensures Holds(s, op, []) && fresh(BufOf(s))
  {
    match op
    case Ema(_, period) =>
      s := EmaState(2.0 / (period as real + 1.0), 0.0, false);
    case Momentum(_, lookback) =>
      var buf := new real[lookback + 1](_ => 0.0);
      s := MomentumState(buf, 0, 0, lookback);
    case Reversion(_, window) =>
      var buf := new real[window](_ => 0.0);
      s := ReversionState(buf, 0, 0, window, 0.0, 0.0);
  }

  method EmaUpdate(s0: IndState, price: real, ghost op: Op, ghost hist: seq<real>) returns (s: IndState, v: real)
    requires s0.EmaState? ==> Holds(s0, op, hist)
    ensures s0.EmaState? ==> Holds(s, op, hist + [price]) && v == EmaOf(op.period, hist + [price])
    ensures !s0.EmaState? ==> s == s0 && v == 0.0
    ensures BufOf(s) == BufOf(s0)
  {
    if !s0.EmaState? {
      return s0, 0.0;
    }
    assert (hist + [price])[..|hist|] == hist;
    v := if s0.init then s0.value + s0.alpha * (price - s0.value) else price;
    s := EmaState(s0.alpha, v, true);
  }

  /** Writes a price at the head of a ring and steps the head around. */
  method RingWrite(buf: array<real>, filled0: nat, head0: nat, price: real, ghost hist: seq<real>)
    returns (filled: nat, head: nat)
    requires RingHolds(buf[..], filled0, head0, hist)
    modifies buf
    ensures RingHolds(buf[..], filled, head, hist + [price])
  {
    RingPush(buf[..], filled0, head0, hist, price);
    hide RingHolds;
    ghost var before := buf[..];
    buf[head0] := price;
    assert buf[..] == before[head0 := price];
    head := (head0 + 1) % buf.Length;
    filled := if filled0 < buf.Length then filled0 + 1 else filled0;
  }

  lemma {:induction false} RingFilled(buf: seq<real>, filled: nat, head: nat, hist: seq<real>)
    requires RingHolds(buf, filled, head, hist)
    ensures filled == (if |hist| < |buf| then |hist| else |buf|) && head < |buf|
  {
  }

  method MomentumUpdate(s0: IndState, price: real, ghost op: Op, ghost hist: seq<real>) returns (s: IndState, v: real)
    requires s0.MomentumState? ==> Holds(s0, op, hist)
    modifies BufOf(s0)
    ensures s0.MomentumState? ==>
              && Holds(s, op, hist + [price])
              && v == MomentumOf(op.lookback, MOMENTUM_BPS_FULL_SCALE, hist + [price])
    ensures !s0.MomentumState? ==> s == s0 && v == 0.0 && forall b :: b in BufOf(s0) ==> unchanged(b)
    ensures BufOf(s) == BufOf(s0)
  {
    hide MomentumReading, RingHolds;
    if !s0.MomentumState? {
      return s0, 0.0;
    }
    var buf, lookback := s0.buf, s0.lookback;
    var filled, head := RingWrite(buf, s0.filled, s0.head, price, hist);
    RingFilled(buf[..], filled, head, hist + [price]);
    s := MomentumState(buf, filled, head, lookback);
    if filled <= lookback {
      return s, 0.0;
    }
    RingOldest(buf[..], filled, head, hist + [price]);
    v := Return(buf[head], price);
  }

  method Return(oldest: real, now: real) returns (v: real)
    ensures v == MomentumReading(oldest, now, MOMENTUM_BPS_FULL_SCALE)
  {
    if oldest == 0.0 {
      return 0.0;
    }
    var bps := (now - oldest) / oldest * 10_000.0;
    v := Clamp(bps / MOMENTUM_BPS_FULL_SCALE);
  }

  method FadedZScore(price: real, n: nat, sum: real, sumSq: real, sqrt: SqrtFn) returns (v: real)
    requires n > 0
    ensures v == ReversionReading(price, n, sum, sumSq, sqrt)
  {
    var mean := sum / n as real;
    var variance := sumSq / n as real - mean * mean;
    if variance <= 0.000000000001 {
      return 0.0;
    }
    var std := sqrt(variance);
    var z := (price - mean) / std;
    v := Clamp(-z / 2.0);
  }

  /** Evicting the oldest of a full window and adding a price moves the sums with the window. */
  lemma {:induction false} SumsSlide(hist: seq<real>, price: real, window: nat)
    requires window >= 1
    ensures var w, w' := Recent(hist, window), Recent(hist + [price], window);
      if |hist| >= window then
        && Sum(w') == Sum(w) - hist[|hist| - window] + price
        && SumSq(w') == SumSq(w) - Square(hist[|hist| - window]) + Square(price)
      else
        Sum(w') == Sum(w) + price && SumSq(w') == SumSq(w) + Square(price)
  {
    hide Square;
    var w, w' := Recent(hist, window), Recent(hist + [price], window);
    if |hist| >= window {
      SumsDropFirst(w);
      SumsAppend(w[1..], price);
      assert w' == w[1..] + [price];
    } else {
      SumsAppend(w, price);
      assert w' == w + [price];
    }
  }

  /** Takes the price about to be overwritten off the sums of a full window: what is left are the
      sums of the next window without its last price. */
  method Evict(buf: array<real>, filled: nat, head: nat, window: nat, sum0: real, sumSq0: real,
               ghost price: real, ghost hist: seq<real>)
    returns (sum: real, sumSq: real)
    requires RingHolds(buf[..], filled, head, hist) && buf.Length == window
    requires sum0 == Sum(Recent(hist, window)) && sumSq0 == SumSq(Recent(hist, window))
    ensures sum + price == Sum(Recent(hist + [price], window))
    ensures sumSq + Square(price) == SumSq(Recent(hist + [price], window))
  {
    hide Square, Sum, SumSq, Recent;
    SumsSlide(hist, price, window);
    sum, sumSq := sum0, sumSq0;
    if filled == window {
      RingOldest(buf[..], filled, head, hist);
      var evicted := buf[head];
      sum := sum - evicted;
      sumSq := sumSq - Square(evicted);
    }
  }

  method ReversionUpdate(s0: IndState, price: real, sqrt: SqrtFn, ghost op: Op, ghost hist: seq<real>)
    returns (s: IndState, v: real)
    requires s0.ReversionState? ==> Holds(s0, op, hist) && op.Runs()
    modifies BufOf(s0)
    ensures s0.ReversionState? ==>
              && Holds(s, op, hist + [price])
              && v == ReversionOf(op.window, sqrt, hist + [price])
    ensures !s0.ReversionState? ==> s == s0 && v == 0.0 && forall b :: b in BufOf(s0) ==> unchanged(b)
    ensures BufOf(s) == BufOf(s0)
  {
    hide ReversionReading, Square, Sum, SumSq, Recent, RingHolds;
    if !s0.ReversionState? {
      return s0, 0.0;
    }
    var buf, window := s0.buf, s0.window;
    var sum, sumSq := Evict(buf, s0.filled, s0.head, window, s0.sum, s0.sumSq, price, hist);
    var filled, head := RingWrite(buf, s0.filled, s0.head, price, hist);
    RingFilled(buf[..], filled, head, hist + [price]);
    sum := sum + price;
    sumSq := sumSq + Square(price);
    s := ReversionState(buf, filled, head, window, sum, sumSq);
    if filled < window {
      return s, 0.0;
    }
    v := FadedZScore(price, window, sum, sumSq, sqrt);
  }
}
