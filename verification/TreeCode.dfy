/** Compiled trees run as they mean: each tree's code pushes exactly its value. */
module TreeCode {
  import opened Indicators
  import opened Bytecode
  import opened Graph

  /** Every indicator has a cell to write to. */
  predicate TreeOk(t: Tree) {
    match t
    case Leaf(i) => i.At(0).Runs()
    case Cond(input, _, _) => TreeOk(input)
    case Gate(_, first, rest) => TreeOk(first) && AllOk(rest)
    case _ => true
  }

  predicate AllOk(ts: seq<Tree>) {
    ts != [] ==> AllOk(ts[..|ts| - 1]) && TreeOk(ts[|ts| - 1])
  }

  predicate AllTrue(vs: seq<real>) {
    forall i :: 0 <= i < |vs| ==> vs[i] > 0.0
  }

  predicate AnyTrue(vs: seq<real>) {
    exists i :: 0 <= i < |vs| && vs[i] > 0.0
  }

  /** A gate's value: nothing wired reads as zero, a single input passes through as it is, two
      or more give the truth of the conjunction or disjunction. */
  function Combine(all: bool, vs: seq<real>): real {
    if vs == [] then 0.0
    else if |vs| == 1 then vs[0]
    else BoolReal(if all then AllTrue(vs) else AnyTrue(vs))
  }

  /** An indicator's value; one without a window has none and stands at zero. */
  function IndicatorValue(sqrt: SqrtFn, i: Indicator, hist: seq<real>): real {
    if i.At(0).Runs() then Reading(sqrt, i.At(0), hist) else 0.0
  }

  /** The value of a tree on a price history. */
  function Eval(sqrt: SqrtFn, t: Tree, hist: seq<real>): real
    requires hist != []
    decreases t
  {
    match t
    case Price => Last(hist)
    case Zero => 0.0
    case Leaf(i) => IndicatorValue(sqrt, i, hist)
    case Cond(input, cmp, value) => Binary(cmp.AsOp(), Eval(sqrt, input, hist), value)
    case Gate(all, first, rest) => Combine(all, [Eval(sqrt, first, hist)] + EvalAll(sqrt, rest, hist))
  }

  function EvalAll(sqrt: SqrtFn, ts: seq<Tree>, hist: seq<real>): (vs: seq<real>)
    requires hist != []
    ensures |vs| == |ts|
    decreases ts
  {
    if ts == [] then []
    else EvalAll(sqrt, ts[..|ts| - 1], hist) + [Eval(sqrt, ts[|ts| - 1], hist)]
  }

  function Max(a: nat, b: nat): nat {
    if a < b then b else a
  }

  /** Stack cells a tree's code needs above what is already there. */
  function Need(t: Tree): nat {
    match t
    case Cond(input, _, _) => Max(Need(input), 2)
    case Gate(_, first, rest) => Max(Need(first), NeedRest(rest))
    case _ => 1
  }

  /** Each further input of a gate is computed above the running result. */
  function NeedRest(ts: seq<Tree>): nat {
    if ts == [] then 0 else Max(NeedRest(ts[..|ts| - 1]), 1 + Need(ts[|ts| - 1]))
  }

  // ------------------------------------------------------------ slots

  /** A stretch of code with n state cells, numbered from `slot`. */
  ghost predicate Cells(code: seq<Op>, slot: nat, n: nat) {
    |StatefulOps(code)| == n && SlotsFrom(code, slot)
  }

  lemma {:induction false} CellsAppend(p: seq<Op>, q: seq<Op>, slot: nat, n: nat, k: nat)
    requires Cells(p, slot, n) && Cells(q, slot + n, k)
    ensures Cells(p + q, slot, n + k)
  {
    StatefulOpsAppend(p, q);
    SlotsFromAppend(p, q, slot);
  }

  lemma {:induction false} CellsOne(op: Op, slot: nat)
    requires op.IsStateful() ==> op.slot == slot
    ensures Cells([op], slot, if op.IsStateful() then 1 else 0)
  {
    assert [op][1..] == [];
  }

  /** Slot agreement: a tree's code numbers its state cells in order from its first slot. */
  lemma {:induction false} CodeCells(t: Tree, slot: nat)
    ensures Cells(Code(t, slot), slot, Slots(t))
    decreases t
  {
    hide Cells;
    match t
    case Price => CellsOne(PushPrice, slot);
    case Zero => CellsOne(PushConst(0.0), slot);
    case Leaf(i) => CellsOne(i.At(slot), slot);
    case Cond(input, cmp, value) =>
      CodeCells(input, slot);
      var n := Slots(input);
      CellsOne(PushConst(value), slot + n);
      CellsOne(cmp.AsOp(), slot + n);
      CellsAppend(Code(input, slot), [PushConst(value)], slot, n, 0);
      CellsAppend(Code(input, slot) + [PushConst(value)], [cmp.AsOp()], slot, n, 0);
      assert Code(t, slot) == Code(input, slot) + [PushConst(value)] + [cmp.AsOp()];
    case Gate(all, first, rest) =>
      CodeCells(first, slot);
      FoldCells(all, rest, slot + Slots(first));
      CellsAppend(Code(first, slot), CodeFold(all, rest, slot + Slots(first)), slot, Slots(first), SlotsAll(rest));
  }

  lemma {:induction false} FoldCells(all: bool, ts: seq<Tree>, slot: nat)
    ensures Cells(CodeFold(all, ts, slot), slot, SlotsAll(ts))
    decreases ts
  {
    if ts != [] {
      var init, t := ts[..|ts| - 1], ts[|ts| - 1];
      var n, k := SlotsAll(init), Slots(t);
      FoldCells(all, init, slot);
      CodeCells(t, slot + n);
      CellsAppend(CodeFold(all, init, slot), Code(t, slot + n), slot, n, k);
      CellsOne(FoldOp(all), slot + n + k);
      CellsAppend(CodeFold(all, init, slot) + Code(t, slot + n), [FoldOp(all)], slot, n + k, 0);
    }
  }

  /** A tree's code runs exactly when each of its indicators does. */
  lemma {:induction false} CodeRunsIff(t: Tree, slot: nat)
    ensures AllRun(Code(t, slot)) <==> TreeOk(t)
    decreases t
  {
    match t
    case Leaf(i) => AllRunOne(i.At(slot));
    case Cond(input, cmp, value) =>
      CodeRunsIff(input, slot);
      AllRunParts(Code(input, slot), [PushConst(value), cmp.AsOp()]);
    case Gate(all, first, rest) =>
      CodeRunsIff(first, slot);
      FoldRunsIff(all, rest, slot + Slots(first));
      AllRunParts(Code(first, slot), CodeFold(all, rest, slot + Slots(first)));
    case _ =>
  }

  lemma {:induction false} FoldRunsIff(all: bool, ts: seq<Tree>, slot: nat)
    ensures AllRun(CodeFold(all, ts, slot)) <==> AllOk(ts)
    decreases ts
  {
    hide Code, TreeOk;
    if ts != [] {
      var init, t := ts[..|ts| - 1], ts[|ts| - 1];
      FoldRunsIff(all, init, slot);
      CodeRunsIff(t, slot + SlotsAll(init));
      AllRunParts(CodeFold(all, init, slot), Code(t, slot + SlotsAll(init)));
      AllRunParts(CodeFold(all, init, slot) + Code(t, slot + SlotsAll(init)), [FoldOp(all)]);
    }
  }

  lemma {:induction false} AllRunOne(op: Op)
    ensures AllRun([op]) <==> op.Runs()
  {
    if AllRun([op]) { assert [op][0].Runs(); }
  }

  lemma {:induction false} AllRunParts(p: seq<Op>, q: seq<Op>)
    ensures AllRun(p + q) <==> AllRun(p) && AllRun(q)
  {
    if AllRun(p + q) {
      assert forall i :: 0 <= i < |p| ==> p[i] == (p + q)[i];
      assert forall i :: 0 <= i < |q| ==> q[i] == (p + q)[|p| + i];
    }
  }

  // ------------------------------------------------------------ values

  lemma {:induction false} CombineStep(all: bool, vs: seq<real>, v: real)
    requires vs != []
    ensures Combine(all, vs + [v]) == Binary(FoldOp(all), Combine(all, vs), v)
  {
    var ws := vs + [v];
    assert ws[|vs|] == v;
    assert forall i :: 0 <= i < |vs| ==> ws[i] == vs[i];
    if all {
      assert AllTrue(ws) <==> AllTrue(vs) && v > 0.0;
    } else {
      if AnyTrue(vs) { var i :| 0 <= i < |vs| && vs[i] > 0.0; assert ws[i] > 0.0; }
      assert AnyTrue(ws) <==> AnyTrue(vs) || v > 0.0;
    }
    assert |vs| == 1 ==> (AllTrue(vs) <==> vs[0] > 0.0) && (AnyTrue(vs) <==> vs[0] > 0.0);
  }

  /** The machine with one more value on its stack. */
  function Pushed(m: Machine, v: real): Machine {
    m.(cells := m.cells + [v])
  }

  lemma {:induction false} ExecOne(sqrt: SqrtFn, op: Op, m: Machine, hist: seq<real>)
    requires hist != [] && op.Runs()
    ensures AllRun([op]) && Exec(sqrt, [op], m, hist) == ExecOp(sqrt, op, m, hist)
  {
    assert [op][1..] == [];
  }

  lemma {:induction false} ExecBinary(sqrt: SqrtFn, op: Op, m: Machine, a: real, b: real, hist: seq<real>)
    requires hist != [] && op.IsBinary() && |m.cells| < STACK_CAP
    ensures AllRun([op]) && Exec(sqrt, [op], Pushed(Pushed(m, a), b), hist) == Pushed(m, Binary(op, a, b))
  {
    hide Binary;
    var two := Pushed(Pushed(m, a), b);
    ExecOne(sqrt, op, two, hist);
    assert two.Top() == b && two.Drop() == Pushed(m, a);
    assert two.Drop().Top() == a && two.Drop().Drop() == m;
  }

  /** Stack discipline and meaning: given room, a tree's code leaves the cells below as they
      were and pushes exactly the tree's value, wherever its slots begin. */
  lemma {:induction false} CodeRuns(sqrt: SqrtFn, t: Tree, slot: nat, m: Machine, hist: seq<real>)
    requires hist != [] && TreeOk(t) && |m.cells| + Need(t) <= STACK_CAP
    ensures AllRun(Code(t, slot)) && Exec(sqrt, Code(t, slot), m, hist) == Pushed(m, Eval(sqrt, t, hist))
    decreases t
  {
    hide Binary, Reading, Combine, Exec, ExecOp;
    match t
    case Price => PushRuns(sqrt, PushPrice, m, hist);
    case Zero => PushRuns(sqrt, PushConst(0.0), m, hist);
    case Leaf(i) => LeafRuns(sqrt, i, slot, m, hist);
    case Cond(input, cmp, value) =>
      CodeRuns(sqrt, input, slot, m, hist);
      CondRuns(sqrt, input, cmp, value, slot, m, hist);
    case Gate(all, first, rest) =>
      CodeRuns(sqrt, first, slot, m, hist);
      NeedPositive(first);
      FoldRuns(sqrt, all, rest, slot + Slots(first), m, [Eval(sqrt, first, hist)], hist);
      GateRuns(sqrt, all, first, rest, slot, m, hist);
  }

  lemma {:induction false} GateUnfolds(sqrt: SqrtFn, all: bool, first: Tree, rest: seq<Tree>, slot: nat,
                                       hist: seq<real>)
    requires hist != []
    ensures Code(Gate(all, first, rest), slot) == Code(first, slot) + CodeFold(all, rest, slot + Slots(first))
    ensures Eval(sqrt, Gate(all, first, rest), hist)
      == Combine(all, [Eval(sqrt, first, hist)] + EvalAll(sqrt, rest, hist))
  {
    hide Combine, CodeFold, EvalAll;
  }

  lemma {:induction false} GateRuns(sqrt: SqrtFn, all: bool, first: Tree, rest: seq<Tree>, slot: nat, m: Machine,
                                    hist: seq<real>)
    requires hist != [] && AllRun(Code(first, slot))
    requires AllRun(CodeFold(all, rest, slot + Slots(first)))
    requires Exec(sqrt, Code(first, slot), m, hist) == Pushed(m, Eval(sqrt, first, hist))
    requires var v := Eval(sqrt, first, hist);
      Exec(sqrt, CodeFold(all, rest, slot + Slots(first)), Pushed(m, Combine(all, [v])), hist)
      == Pushed(m, Combine(all, [v] + EvalAll(sqrt, rest, hist)))
    ensures AllRun(Code(Gate(all, first, rest), slot))
    ensures Exec(sqrt, Code(Gate(all, first, rest), slot), m, hist)
      == Pushed(m, Eval(sqrt, Gate(all, first, rest), hist))
  {
    hide Exec, ExecOp, Combine, Code, CodeFold, Eval, EvalAll;
    CombineOne(all, Eval(sqrt, first, hist));
    GateUnfolds(sqrt, all, first, rest, slot, hist);
    ExecAppend(sqrt, Code(first, slot), CodeFold(all, rest, slot + Slots(first)), m, hist);
  }

  lemma {:induction false} PushRuns(sqrt: SqrtFn, op: Op, m: Machine, hist: seq<real>)
    requires hist != [] && (op.PushPrice? || op.PushConst?) && |m.cells| < STACK_CAP
    ensures AllRun([op]) && Exec(sqrt, [op], m, hist) == Pushed(m, if op.PushPrice? then Last(hist) else op.c)
  {
    ExecOne(sqrt, op, m, hist);
  }

  /** An indicator reads the same whatever its slot. */
  lemma {:induction false} LeafRuns(sqrt: SqrtFn, i: Indicator, slot: nat, m: Machine, hist: seq<real>)
    requires hist != [] && i.At(0).Runs() && |m.cells| < STACK_CAP
    ensures AllRun([i.At(slot)])
    ensures Exec(sqrt, [i.At(slot)], m, hist) == Pushed(m, Reading(sqrt, i.At(0), hist))
  {
    hide EmaOf, MomentumOf, ReversionOf;
    ExecOne(sqrt, i.At(slot), m, hist);
  }

  lemma {:induction false} CondRuns(sqrt: SqrtFn, input: Tree, cmp: Comparison, value: real, slot: nat, m: Machine,
                                    hist: seq<real>)
    requires hist != [] && TreeOk(Cond(input, cmp, value)) && |m.cells| + Need(Cond(input, cmp, value)) <= STACK_CAP
    requires AllRun(Code(input, slot)) && Exec(sqrt, Code(input, slot), m, hist) == Pushed(m, Eval(sqrt, input, hist))
    ensures AllRun(Code(Cond(input, cmp, value), slot))
    ensures Exec(sqrt, Code(Cond(input, cmp, value), slot), m, hist)
            == Pushed(m, Binary(cmp.AsOp(), Eval(sqrt, input, hist), value))
  {
    hide Binary, Eval, Need;
    var v := Eval(sqrt, input, hist);
    var push, compare := [PushConst(value)], [cmp.AsOp()];
    NeedOfCond(input, cmp, value);
    ExecOne(sqrt, PushConst(value), Pushed(m, v), hist);
    ExecBinary(sqrt, cmp.AsOp(), m, v, value, hist);
    ExecAppend(sqrt, push, compare, Pushed(m, v), hist);
    ExecAppend(sqrt, Code(input, slot), push + compare, m, hist);
    assert Code(Cond(input, cmp, value), slot) == Code(input, slot) + (push + compare);
  }

  lemma {:induction false} NeedPositive(t: Tree)
    ensures Need(t) >= 1
  {
    if t.Gate? { NeedPositive(t.first); }
  }

  lemma {:induction false} CombineOne(all: bool, v: real)
    ensures Combine(all, [v]) == v
  {
  }

  lemma {:induction false} NeedOfCond(input: Tree, cmp: Comparison, value: real)
    ensures Need(Cond(input, cmp, value)) >= 2
  {
  }

  /** Folding further inputs into a gate's running result. */
  lemma {:induction false} FoldRuns(sqrt: SqrtFn, all: bool, ts: seq<Tree>, slot: nat, m: Machine, vs: seq<real>,
                                    hist: seq<real>)
    requires hist != [] && AllOk(ts) && vs != []
    requires |m.cells| + NeedRest(ts) <= STACK_CAP && |m.cells| < STACK_CAP
    ensures AllRun(CodeFold(all, ts, slot))
    ensures Exec(sqrt, CodeFold(all, ts, slot), Pushed(m, Combine(all, vs)), hist)
            == Pushed(m, Combine(all, vs + EvalAll(sqrt, ts, hist)))
    decreases ts
  {
    hide Binary, Combine, ExecOp, Eval, Code, TreeOk, Need, Slots;
    assert AllRun(CodeFold(all, ts, slot)) by { FoldRunsIff(all, ts, slot); }
    if ts == [] {
      assert vs + [] == vs;
    } else {
      hide Exec, CodeFold, EvalAll, AllOk, NeedRest;
      var init, t := ts[..|ts| - 1], ts[|ts| - 1];
      FoldUnfolds(sqrt, all, ts, slot, hist);
      var us, v := vs + EvalAll(sqrt, init, hist), Eval(sqrt, t, hist);
      FoldRuns(sqrt, all, init, slot, m, vs, hist);
      CodeRuns(sqrt, t, slot + SlotsAll(init), Pushed(m, Combine(all, us)), hist);
      FoldStep(sqrt, all, CodeFold(all, init, slot), Code(t, slot + SlotsAll(init)), m, vs, us, v, hist);
      assert us + [v] == vs + EvalAll(sqrt, ts, hist);
    }
  }

  lemma {:induction false} FoldUnfolds(sqrt: SqrtFn, all: bool, ts: seq<Tree>, slot: nat, hist: seq<real>)
    requires hist != [] && ts != [] && AllOk(ts)
    ensures var init, t := ts[..|ts| - 1], ts[|ts| - 1];
      && AllOk(init) && TreeOk(t)
      && NeedRest(init) <= NeedRest(ts) && 1 + Need(t) <= NeedRest(ts)
      && CodeFold(all, ts, slot) == CodeFold(all, init, slot) + Code(t, slot + SlotsAll(init)) + [FoldOp(all)]
      && EvalAll(sqrt, ts, hist) == EvalAll(sqrt, init, hist) + [Eval(sqrt, t, hist)]
  {
    hide Code, Eval, TreeOk, Need, Slots;
  }

  lemma {:induction false} FoldStep(sqrt: SqrtFn, all: bool, p: seq<Op>, q: seq<Op>, m: Machine,
                                   vs: seq<real>, us: seq<real>, v: real, hist: seq<real>)
    requires hist != [] && AllRun(p) && AllRun(q) && us != [] && |m.cells| < STACK_CAP
    requires Exec(sqrt, p, Pushed(m, Combine(all, vs)), hist) == Pushed(m, Combine(all, us))
    requires Exec(sqrt, q, Pushed(m, Combine(all, us)), hist) == Pushed(Pushed(m, Combine(all, us)), v)
    ensures AllRun(p + q + [FoldOp(all)])
    ensures Exec(sqrt, p + q + [FoldOp(all)], Pushed(m, Combine(all, vs)), hist) == Pushed(m, Combine(all, us + [v]))
  {
    hide Binary, Combine, ExecOp, Exec;
    var start := Pushed(m, Combine(all, vs));
    ExecAppend(sqrt, p, q, start, hist);
    ExecBinary(sqrt, FoldOp(all), m, Combine(all, us), v, hist);
    ExecAppend(sqrt, p + q, [FoldOp(all)], start, hist);
    CombineStep(all, us, v);
  }
}
