/** The virtual machine: a fixed stack and one state cell per stateful op, updated in place. */
module VirtualMachine {
  import opened Indicators
  import opened Bytecode

  /** Cells hold the states of their ops, the first k already after the current price. */
  ghost predicate CellsHold(state: seq<IndState>, ops: seq<Op>, k: nat, before: seq<real>, after: seq<real>)
    reads set i, b | 0 <= i < |state| && b in BufOf(state[i]) :: b
  {
    && |state| == |ops| && k <= |ops|
    && forall i :: 0 <= i < |ops| ==> Holds(state[i], ops[i], if i < k then after else before)
  }

  /** No two cells share a ring. */
  ghost predicate Separate(state: seq<IndState>, stack: array<real>) {
    && (forall i, j :: 0 <= i < j < |state| ==> BufOf(state[i]) !! BufOf(state[j]))
    && (forall i :: 0 <= i < |state| ==> stack !in BufOf(state[i]))
  }

  class Vm {
    const prog: seq<Op>
    const sqrt: SqrtFn
    var state: seq<IndState>
    const stack: array<real>
    var sp: nat
    ghost var hist: seq<real>

    /** Every cell is the state of its own op after the prices fed so far. */
    ghost predicate Valid()
      reads this, stack, set i, b | 0 <= i < |state| && b in BufOf(state[i]) :: b
    {
      && Shape()
      && CellsHold(state, StatefulOps(prog), 0, hist, hist)
    }

    ghost predicate Shape()
      reads this
    {
      && AllRun(prog) && SlotsFrom(prog, 0)
      && stack.Length == STACK_CAP && sp <= STACK_CAP
      && Separate(state, stack)
    }

    constructor (prog: seq<Op>, sqrt: SqrtFn)
      requires AllRun(prog) && SlotsFrom(prog, 0)
      ensures Valid() && hist == [] && this.prog == prog && this.sqrt == sqrt
      ensures fresh(stack) && forall i :: 0 <= i < |state| ==> fresh(BufOf(state[i]))
    {
      hide Holds, SlotsFrom, AllRun, StatefulOps;
      var cells := MakeCells(prog);
      this.prog, this.sqrt := prog, sqrt;
      stack := new real[STACK_CAP](_ => 0.0);
      state := cells;
      sp := 0;
      hist := [];
    }

    /** One fresh cell per stateful op, in order. */
    static method MakeCells(prog: seq<Op>) returns (state: seq<IndState>)
      requires AllRun(prog)
      ensures |state| == |StatefulOps(prog)|
      ensures forall i :: 0 <= i < |state| ==> fresh(BufOf(state[i])) && Holds(state[i], StatefulOps(prog)[i], [])
      ensures forall i, j :: 0 <= i < j < |state| ==> BufOf(state[i]) !! BufOf(state[j])
    {
      hide Holds;
      state := [];
      for n := 0 to |prog|
        invariant |state| == |StatefulOps(prog[..n])|
        invariant forall i :: 0 <= i < |state| ==> fresh(BufOf(state[i]))
        invariant forall i :: 0 <= i < |state| ==> Holds(state[i], StatefulOps(prog[..n])[i], [])
        invariant forall i, j :: 0 <= i < j < |state| ==> BufOf(state[i]) !! BufOf(state[j])
      {
        assert prog[n].Runs();
        StatefulOpsSnoc(prog, n);
        hide StatefulOps, AllRun;
        if prog[n].IsStateful() {
          var s := ForOp(prog[n]);
          state := state + [s];
        }
      }
      assert prog[..|prog|] == prog;
    }

    static lemma {:induction false} StatefulOpsSnoc(prog: seq<Op>, n: nat)
      requires n < |prog|
      ensures StatefulOps(prog[..n + 1])
              == StatefulOps(prog[..n]) + if prog[n].IsStateful() then [prog[n]] else []
    {
      assert prog[..n + 1] == prog[..n] + [prog[n]];
      StatefulOpsAppend(prog[..n], [prog[n]]);
      assert [prog[n]][1..] == [];
    }

    ghost function Cells(): seq<real>
      requires sp <= stack.Length
      reads this, stack
    {
      stack[..sp]
    }

    method Push(v: real)
      requires stack.Length == STACK_CAP && sp <= STACK_CAP
      modifies this`sp, stack
      ensures sp <= STACK_CAP
      ensures forall d :: Machine(Cells(), d) == Machine(old(Cells()), d).Push(v)
    {
      if sp < STACK_CAP {
        stack[sp] := v;
        sp := sp + 1;
      }
    }

    method Pop() returns (v: real)
      requires stack.Length == STACK_CAP && sp <= STACK_CAP
      modifies this`sp
      ensures sp <= STACK_CAP
      ensures forall d :: Machine(Cells(), d) == Machine(old(Cells()), d).Drop() && v == Machine(old(Cells()), d).Top()
    {
      if sp > 0 {
        sp := sp - 1;
        v := stack[sp];
      } else {
        v := 0.0;
      }
    }

    /** Runs the indicator of one op on its own cell. */
    method UpdateCell(op: Op, price: real, ghost k: nat) returns (v: real)
      requires Shape() && k < |StatefulOps(prog)| && StatefulOps(prog)[k] == op
      requires op.IsStateful() && op.slot == k && op.Runs()
      requires CellsHold(state, StatefulOps(prog), k, hist, hist + [price])
      modifies this`state, BufOf(state[op.slot])
      ensures |state| == old(|state|) && forall i :: 0 <= i < |state| ==> BufOf(state[i]) == old(BufOf(state[i]))
      ensures CellsHold(state, StatefulOps(prog), k + 1, hist, hist + [price])
      ensures v == Reading(sqrt, op, hist + [price])
    {
      hide Sum, SumSq, EmaOf, MomentumReading, ReversionReading;
      var s := state[op.slot];
      assert Holds(s, op, hist);
      hide Holds, AllRun, SlotsFrom;
      match op {
        case Ema(slot, _) => s, v := EmaUpdate(s, price, op, hist);
        case Momentum(slot, _) => s, v := MomentumUpdate(s, price, op, hist);
        case Reversion(slot, _) => s, v := ReversionUpdate(s, price, sqrt, op, hist);
      }
      state := state[op.slot := s];
    }

    /** Pops two operands, the second first, and pushes the result. */
    method ExecBinary(op: Op)
      requires stack.Length == STACK_CAP && sp <= STACK_CAP && op.IsBinary()
      modifies this`sp, stack
      ensures sp <= STACK_CAP
      ensures forall d ::
        var m := Machine(old(Cells()), d);
        Machine(Cells(), d) == m.Drop().Drop().Push(Binary(op, m.Drop().Top(), m.Top()))
    {
      var b := Pop();
      var a := Pop();
      match op
      case Gt => Push(BoolReal(a > b));
      case Lt => Push(BoolReal(a < b));
      case Ge => Push(BoolReal(a >= b));
      case Le => Push(BoolReal(a <= b));
      case Eq => Push(BoolReal(Abs(a - b) < 0.0000000001));
      case And => Push(BoolReal(a > 0.0 && b > 0.0));
      case Or => Push(BoolReal(a > 0.0 || b > 0.0));
    }

    /** Executes an op that touches only the stack. */
    method ExecStackOp(op: Op, price: real, decision0: VmDecision) returns (decision: VmDecision)
      requires stack.Length == STACK_CAP && sp <= STACK_CAP && !op.IsStateful()
      modifies this`sp, stack
      ensures sp <= STACK_CAP
      ensures Machine(Cells(), decision)
              == ExecOp(sqrt, op, Machine(old(Cells()), decision0), hist + [price])
    {
      hide Reading, Abs;
      decision := decision0;
      if op.IsBinary() {
        ExecBinary(op);
        return;
      }
      assert Last(hist + [price]) == price;
      match op
      case PushPrice =>
        Push(price);
      case PushConst(c) =>
        Push(c);
      case Not =>
        var a := Pop();
        Push(BoolReal(a <= 0.0));
      case Buy =>
        var c := Pop();
        if c > 0.0 { decision := BuyAt(c); }
      case Sell =>
        var c := Pop();
        if c > 0.0 { decision := SellAt(c); }
    }

    /** Executes one op: an indicator on its cell, anything else on the stack alone. */
    method Step(op: Op, price: real, decision0: VmDecision, ghost k: nat) returns (decision: VmDecision)
      requires Shape() && op.Runs() && CellsHold(state, StatefulOps(prog), k, hist, hist + [price])
      requires op.IsStateful() ==> k < |StatefulOps(prog)| && StatefulOps(prog)[k] == op && op.slot == k
      modifies this`state, this`sp, stack, set i, b | 0 <= i < |state| && b in BufOf(state[i]) :: b
      ensures Shape()
      ensures |state| == old(|state|) && forall i :: 0 <= i < |state| ==> BufOf(state[i]) == old(BufOf(state[i]))
      ensures CellsHold(state, StatefulOps(prog), if op.IsStateful() then k + 1 else k, hist, hist + [price])
      ensures Machine(Cells(), decision)
              == ExecOp(sqrt, op, Machine(old(Cells()), decision0), hist + [price])
    {
      hide Holds, Reading, SlotsFrom, StatefulOps, ExecOp;
      if op.IsStateful() {
        ExecIndicator(op, Machine(Cells(), decision0), hist + [price]);
        var v := UpdateCell(op, price, k);
        Push(v);
        decision := decision0;
      } else {
        decision := ExecStackOp(op, price, decision0);
      }
    }

    lemma {:induction false} ExecIndicator(op: Op, m: Machine, hist: seq<real>)
      requires op.IsStateful() && op.Runs() && hist != []
      ensures ExecOp(sqrt, op, m, hist) == m.Push(Reading(sqrt, op, hist))
    {
      hide Reading;
    }

    /** One tick: the decision is what the program means on the whole price history. */
    method Run(price: real) returns (decision: VmDecision)
      requires Valid()
      modifies this, stack, set i, b | 0 <= i < |state| && b in BufOf(state[i]) :: b
      ensures Valid() && hist == old(hist) + [price]
      ensures |state| == old(|state|) && forall i :: 0 <= i < |state| ==> BufOf(state[i]) == old(BufOf(state[i]))
      ensures Machine(Cells(), decision) == Exec(sqrt, prog, RESET, hist)
    {
      hide Holds, ExecOp, Reading, SlotsAt, Separate, SlotsFrom, StatefulOps;
      sp := 0;
      decision := Hold;
      ghost var after := hist + [price];
      ghost var k := 0;
      Start(prog);
      var i := 0;
      while i < |prog|
        invariant i <= |prog| && k <= |StatefulOps(prog)|
        invariant Shape() && hist == old(hist)
        invariant |state| == old(|state|) && forall j :: 0 <= j < |state| ==> BufOf(state[j]) == old(BufOf(state[j]))
        invariant CellsHold(state, StatefulOps(prog), k, hist, after)
        invariant SlotsAt(prog, i, k)
        invariant Exec(sqrt, prog[i..], Machine(Cells(), decision), after) == Exec(sqrt, prog, RESET, after)
      {
        assert prog[i..][0] == prog[i] && prog[i..][1..] == prog[i + 1..];
        SlotsStep(prog, i, k);
        decision := Step(prog[i], price, decision, k);
        k := if prog[i].IsStateful() then k + 1 else k;
        i := i + 1;
      }
      Finish(prog, k);
      hist := after;
    }

    /** One decision per price of a whole stream. */
    method RunAll(prices: seq<real>) returns (decisions: seq<VmDecision>)
      requires Valid() && hist == []
      modifies this, stack, set i, b | 0 <= i < |state| && b in BufOf(state[i]) :: b
      ensures Valid() && hist == prices
      ensures |decisions| == |prices|
      ensures forall k :: 1 <= k <= |prices| ==> decisions[k - 1] == Exec(sqrt, prog, RESET, prices[..k]).decision
    {
      hide Holds, Exec, SlotsFrom, StatefulOps, CellsHold;
      decisions := [];
      var i := 0;
      while i < |prices|
        invariant i <= |prices| && |decisions| == i
        invariant Valid() && hist == prices[..i]
        invariant |state| == old(|state|) && forall j :: 0 <= j < |state| ==> BufOf(state[j]) == old(BufOf(state[j]))
        invariant forall k :: 1 <= k <= i ==> decisions[k - 1] == Exec(sqrt, prog, RESET, prices[..k]).decision
      {
        assert prices[..i + 1] == prices[..i] + [prices[i]];
        var d := Run(prices[i]);
        decisions := decisions + [d];
        i := i + 1;
      }
      assert prices[..i] == prices;
    }

    static lemma {:induction false} Start(prog: seq<Op>)
      requires SlotsFrom(prog, 0)
      ensures SlotsAt(prog, 0, 0) && prog[0..] == prog
    {
    }

    static lemma {:induction false} Finish(prog: seq<Op>, k: nat)
      requires SlotsAt(prog, |prog|, k)
      ensures k == |StatefulOps(prog)|
    {
      assert prog[|prog|..] == [];
    }
  }
}
