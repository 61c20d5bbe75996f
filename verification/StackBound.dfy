/** When a compiled graph fits the stack: exactly when a need computed from its trees does, and
    always when no walk crosses more than thirty gates. */
module StackBound {
  import opened Indicators
  import opened Bytecode
  import opened Graph
  import opened TreeCode
  import opened CompilerCorrectness
  import opened Compilable

  function Pops(op: Op): nat {
    if op.IsBinary() then 2 else if op.Not? || op.Buy? || op.Sell? then 1 else 0
  }

  function Pushes(op: Op): nat {
    if op.Buy? || op.Sell? then 0 else 1
  }

  /** Running from m, no pop meets an empty stack and no push a full one. */
  predicate Smooth(sqrt: SqrtFn, ops: seq<Op>, m: Machine, hist: seq<real>)
    requires hist != [] && AllRun(ops)
  {
    ops != [] ==>
      var next := ExecOp(sqrt, ops[0], m, hist);
      && Pops(ops[0]) <= |m.cells|
      && |next.cells| == |m.cells| - Pops(ops[0]) + Pushes(ops[0])
      && Smooth(sqrt, ops[1..], next, hist)
  }

  /** The same, counting cells only: from depth d. */
  predicate Fits(ops: seq<Op>, d: nat) {
    ops != [] ==>
      && Pops(ops[0]) <= d
      && d - Pops(ops[0]) + Pushes(ops[0]) <= STACK_CAP
      && Fits(ops[1..], d - Pops(ops[0]) + Pushes(ops[0]))
  }

  /** The change in depth a stretch of code makes. */
  function Rise(ops: seq<Op>): int {
    if ops == [] then 0 else Pushes(ops[0]) - Pops(ops[0]) + Rise(ops[1..])
  }

  lemma {:induction false} RiseAppend(p: seq<Op>, q: seq<Op>)
    ensures Rise(p + q) == Rise(p) + Rise(q)
  {
    if p == [] {
      assert p + q == q;
    } else {
      assert (p + q)[1..] == p[1..] + q;
      RiseAppend(p[1..], q);
    }
  }

  lemma {:induction false} FitsAppend(p: seq<Op>, q: seq<Op>, d: nat)
    ensures Fits(p, d) ==> d + Rise(p) >= 0
    ensures Fits(p + q, d) <==> Fits(p, d) && Fits(q, d + Rise(p))
    decreases |p|
  {
    if p == [] {
      assert p + q == q;
    } else {
      assert (p + q)[1..] == p[1..] + q;
      if Pops(p[0]) <= d && d - Pops(p[0]) + Pushes(p[0]) <= STACK_CAP {
        FitsAppend(p[1..], q, d - Pops(p[0]) + Pushes(p[0]));
      }
    }
  }

  lemma {:induction false} FitsOne(op: Op, d: nat)
    ensures Fits([op], d) <==> Pops(op) <= d && d - Pops(op) + Pushes(op) <= STACK_CAP
    ensures Rise([op]) == Pushes(op) - Pops(op)
  {
    assert [op][1..] == [];
  }

  lemma {:induction false} StepDepth(sqrt: SqrtFn, op: Op, m: Machine, hist: seq<real>)
    requires hist != [] && op.Runs() && |m.cells| <= STACK_CAP && Pops(op) <= |m.cells|
    ensures var n := |ExecOp(sqrt, op, m, hist).cells|;
      && n <= STACK_CAP
      && (n == |m.cells| - Pops(op) + Pushes(op) <==> |m.cells| - Pops(op) + Pushes(op) <= STACK_CAP)
  {
    hide Reading, Binary;
  }

  /** Counting cells is enough: the machine runs smoothly exactly when the count fits, and then
      its stack rises by the count. */
  lemma {:induction false} SmoothIff(sqrt: SqrtFn, ops: seq<Op>, m: Machine, hist: seq<real>)
    requires hist != [] && AllRun(ops) && |m.cells| <= STACK_CAP
    ensures Smooth(sqrt, ops, m, hist) <==> Fits(ops, |m.cells|)
    ensures Smooth(sqrt, ops, m, hist) ==> |Exec(sqrt, ops, m, hist).cells| == |m.cells| + Rise(ops)
    decreases |ops|
  {
    hide ExecOp;
    if ops != [] && Pops(ops[0]) <= |m.cells| {
      StepDepth(sqrt, ops[0], m, hist);
      SmoothIff(sqrt, ops[1..], ExecOp(sqrt, ops[0], m, hist), hist);
    }
  }

  lemma {:induction false} FitsNone(d: nat)
    ensures Fits([], d) && Rise([]) == 0
  {
  }

  /** Two stretches of code and one op behind them. */
  lemma {:induction false} FitsThen(p: seq<Op>, q: seq<Op>, op: Op, d: nat)
    ensures Rise(p + q + [op]) == Rise(p) + Rise(q) + Pushes(op) - Pops(op)
    ensures Fits(p, d) ==> d + Rise(p) >= 0
    ensures Fits(p, d) && Fits(q, d + Rise(p)) ==> d + Rise(p) + Rise(q) >= 0
    ensures Fits(p + q + [op], d) <==>
      && Fits(p, d) && Fits(q, d + Rise(p))
      && Pops(op) <= d + Rise(p) + Rise(q)
      && d + Rise(p) + Rise(q) - Pops(op) + Pushes(op) <= STACK_CAP
  {
    hide Fits, Rise;
    FitsAppend(p, q, d);
    FitsAppend(p + q, [op], d);
    RiseAppend(p, q);
    RiseAppend(p + q, [op]);
    if d + Rise(p + q) >= 0 {
      FitsOne(op, d + Rise(p + q));
    } else {
      FitsOne(op, 0);
    }
  }

  /** The need is exact: a tree's code fits from depth d just when d plus its need does, and it
      leaves one value more. */
  lemma {:induction false} CodeDepthIff(t: Tree, slot: nat, d: nat)
    ensures Fits(Code(t, slot), d) <==> d + Need(t) <= STACK_CAP
    ensures Rise(Code(t, slot)) == 1
    decreases t
  {
    hide Fits, Rise;
    match t
    case Price => FitsOne(PushPrice, d);
    case Zero => FitsOne(PushConst(0.0), d);
    case Leaf(i) => FitsOne(i.At(slot), d);
    case Cond(input, cmp, value) =>
      CodeDepthIff(input, slot, d);
      NeedPositive(input);
      FitsOne(PushConst(value), d + 1);
      hide Code;
      FitsThen(Code(input, slot), [PushConst(value)], cmp.AsOp(), d);
      CondCode(input, cmp, value, slot);
    case Gate(all, first, rest) =>
      CodeDepthIff(first, slot, d);
      NeedPositive(first);
      FoldDepthIff(all, rest, slot + Slots(first), d);
      FitsAppend(Code(first, slot), CodeFold(all, rest, slot + Slots(first)), d);
      RiseAppend(Code(first, slot), CodeFold(all, rest, slot + Slots(first)));
  }

  lemma {:induction false} CondCode(input: Tree, cmp: Comparison, value: real, slot: nat)
    ensures Code(Cond(input, cmp, value), slot) == Code(input, slot) + [PushConst(value)] + [cmp.AsOp()]
  {
  }

  lemma {:induction false} FoldDepthIff(all: bool, ts: seq<Tree>, slot: nat, d: nat)
    ensures Fits(CodeFold(all, ts, slot), d + 1) <==> d + NeedRest(ts) <= STACK_CAP || ts == []
    ensures Rise(CodeFold(all, ts, slot)) == 0
    decreases ts
  {
    hide Fits, Rise, Code, Need;
    if ts == [] {
      FitsNone(d + 1);
    } else {
      var init, t := ts[..|ts| - 1], ts[|ts| - 1];
      var p, q := CodeFold(all, init, slot), Code(t, slot + SlotsAll(init));
      FoldDepthIff(all, init, slot, d);
      CodeDepthIff(t, slot + SlotsAll(init), d + 1);
      NeedPositive(t);
      FitsThen(p, q, FoldOp(all), d + 1);
    }
  }

  lemma {:induction false} ProgramDepthIff(terms: seq<Terminal>)
    ensures Fits(Program(terms), 0) <==> TermsFit(terms)
    ensures Rise(Program(terms)) == 0
  {
    hide Code, Fits, Rise, Need, SlotsOf;
    if terms == [] {
      FitsNone(0);
    } else {
      var init := terms[..|terms| - 1];
      var (t, buys) := terms[|terms| - 1];
      var p, q := Program(init), Code(t, SlotsOf(init));
      ProgramDepthIff(init);
      CodeDepthIff(t, SlotsOf(init), 0);
      FitsThen(p, q, TerminalOp(buys), 0);
      assert forall i :: 0 <= i < |init| ==> terms[i] == init[i];
      assert TermsFit(terms) <==> (TermsFit(init) && Need(t) <= STACK_CAP);
    }
  }

  /** A tree's code runs on the machine without a dropped push or an empty pop if and only if its
      need finds room above the cells there, and then it leaves one value more. */
  lemma {:induction false} CodeFitsIff(sqrt: SqrtFn, t: Tree, slot: nat, m: Machine, hist: seq<real>)
    requires hist != [] && AllRun(Code(t, slot)) && |m.cells| <= STACK_CAP
    ensures Smooth(sqrt, Code(t, slot), m, hist) <==> |m.cells| + Need(t) <= STACK_CAP
    ensures |m.cells| + Need(t) <= STACK_CAP ==> |Exec(sqrt, Code(t, slot), m, hist).cells| == |m.cells| + 1
  {
    hide Code, Need, Smooth, Fits, Rise, Exec;
    CodeDepthIff(t, slot, |m.cells|);
    SmoothIff(sqrt, Code(t, slot), m, hist);
  }

  /** A compiled program runs on the machine without a dropped push or an empty pop if and only if
      each of its terminals fits, and then it ends with an empty stack. */
  lemma {:induction false} ProgramFitsIff(sqrt: SqrtFn, terms: seq<Terminal>, hist: seq<real>)
    requires hist != [] && AllRun(Program(terms))
    ensures Smooth(sqrt, Program(terms), RESET, hist) <==> TermsFit(terms)
    ensures TermsFit(terms) ==> Exec(sqrt, Program(terms), RESET, hist).cells == []
  {
    hide Program, TermsFit, Smooth, Fits, Rise, Exec;
    ProgramDepthIff(terms);
    SmoothIff(sqrt, Program(terms), RESET, hist);
  }

  // ------------------------------------------------------------ gate depth

  /** The most gates on any way down the tree. */
  function Depth(t: Tree): nat {
    match t
    case Cond(input, _, _) => Depth(input)
    case Gate(_, first, rest) => 1 + Max(Depth(first), DepthRest(rest))
    case _ => 0
  }

  function DepthRest(ts: seq<Tree>): nat {
    if ts == [] then 0 else Max(DepthRest(ts[..|ts| - 1]), Depth(ts[|ts| - 1]))
  }

  /** However wide its gates, a tree needs at most two cells more than its gate depth. */
  lemma {:induction false} NeedWithinDepth(t: Tree)
    ensures Need(t) <= Depth(t) + 2
    decreases t
  {
    match t
    case Cond(input, _, _) => NeedWithinDepth(input);
    case Gate(_, first, rest) =>
      NeedWithinDepth(first);
      NeedRestWithinDepth(rest);
    case _ =>
  }

  lemma {:induction false} NeedRestWithinDepth(ts: seq<Tree>)
    ensures NeedRest(ts) <= DepthRest(ts) + 3
    decreases ts
  {
    if ts != [] {
      NeedRestWithinDepth(ts[..|ts| - 1]);
      NeedWithinDepth(ts[|ts| - 1]);
    }
  }

  /** The gates among some nodes. */
  function GatesOn(net: Net, p: seq<string>): nat {
    if p == [] then 0
    else
      var id := p[|p| - 1];
      GatesOn(net, p[..|p| - 1]) + if id in net.byId && net.Kind(id).Folds? then 1 else 0
  }

  /** A tree's gate depth shows on a walk of the graph. */
  lemma {:induction false} DeepWalk(net: Net, id: string, path: seq<string>) returns (q: seq<string>)
    requires IsWalk(net, path) && (path != [] ==> id in net.Operands(path[|path| - 1]))
    requires Unfold(net, id, path).Ok?
    ensures path + [id] <= q && IsWalk(net, q)
    ensures GatesOn(net, q) >= GatesOn(net, path) + Depth(Unfold(net, id, path).value)
    decreases Free(net, path), 2, 0
  {
    hide KindOf, UnfoldKnown, Depth;
    WalkSnoc(net, path, id);
    FreeShrinks(net, path, id);
    assert (path + [id])[..|path|] == path;
    q := DeepKnown(net, id, path + [id], GatesOn(net, path));
  }

  lemma {:induction false} DeepKnown(net: Net, id: string, path: seq<string>, before: nat) returns (q: seq<string>)
    requires id in net.byId && IsWalk(net, path) && path != [] && path[|path| - 1] == id
    requires UnfoldKnown(net, id, path).Ok?
    requires GatesOn(net, path) == before + if net.Kind(id).Folds? then 1 else 0
    ensures path <= q && IsWalk(net, q)
    ensures GatesOn(net, q) >= before + Depth(UnfoldKnown(net, id, path).value)
    decreases Free(net, path), 5, 0
  {
    hide KindOf, Unfold, UnfoldAll, GatesOn;
    q := path;
    var ins := net.Ins(id);
    if net.Kind(id).Folds? && ins != [] {
      q := DeepAll(net, id, ins, path);
      DepthSplit(UnfoldAll(net, ins, path).value);
    } else if net.Kind(id).IsUnary() && ins != [] {
      q := DeepWalk(net, ins[0], path);
      assert path <= path + [ins[0]] <= q;
    }
  }

  lemma {:induction false} DepthSplit(ts: seq<Tree>)
    requires ts != []
    ensures DepthRest(ts) == Max(Depth(ts[0]), DepthRest(ts[1..]))
  {
    hide Depth;
    if |ts| > 1 {
      DepthSplit(ts[..|ts| - 1]);
      assert ts[1..][..|ts| - 2] == ts[..|ts| - 1][1..];
    }
  }

  lemma {:induction false} DeepAll(net: Net, id: string, ids: seq<string>, path: seq<string>) returns (q: seq<string>)
    requires id in net.byId && IsWalk(net, path) && path != [] && path[|path| - 1] == id
    requires forall x :: x in ids ==> x in net.Operands(id)
    requires UnfoldAll(net, ids, path).Ok?
    ensures path <= q && IsWalk(net, q)
    ensures GatesOn(net, q) >= GatesOn(net, path) + DepthRest(UnfoldAll(net, ids, path).value)
    decreases Free(net, path), 3, |ids|
  {
    hide KindOf, Unfold, GatesOn, Depth;
    q := path;
    if ids != [] {
      var x := ids[|ids| - 1];
      var q1 := DeepAll(net, id, ids[..|ids| - 1], path);
      var q2 := DeepWalk(net, x, path);
      assert path <= path + [x] <= q2;
      q := if GatesOn(net, q1) >= GatesOn(net, q2) then q1 else q2;
    }
  }

  /** A walk that starts at an input of the node. */
  predicate FromInput(net: Net, n: GNode, q: seq<string>) {
    q != [] && q[0] in net.Ins(n.id) && IsWalk(net, q)
  }

  /** No walk from a signal crosses more than thirty gates. */
  ghost predicate Shallow(net: Net, nodes: seq<GNode>) {
    forall k, q | 0 <= k < |nodes| && KindOf(nodes[k]).Signals? && FromInput(net, nodes[k], q) ::
      GatesOn(net, q) <= 30
  }

  lemma {:induction false} ShallowTerminals(net: Net, nodes: seq<GNode>)
    requires forall i :: 0 <= i < |nodes| ==> nodes[i].id in net.byId
    requires Terminals(net, nodes).Ok? && Shallow(net, nodes)
    ensures TermsFit(Terminals(net, nodes).value)
  {
    hide KindOf, Unfold, GatesOn, Depth, Need;
    if nodes != [] {
      var init, n := nodes[..|nodes| - 1], nodes[|nodes| - 1];
      assert forall i :: 0 <= i < |init| ==> init[i] == nodes[i];
      ShallowTerminals(net, init);
      if KindOf(n).Signals? {
        ShallowInput(net, nodes, n);
      }
    }
  }

  lemma {:induction false} ShallowInput(net: Net, nodes: seq<GNode>, n: GNode)
    requires n in nodes && n.id in net.byId && KindOf(n).Signals? && Shallow(net, nodes)
    requires UnfoldUnary(net, n.id, []).Ok?
    ensures Need(UnfoldUnary(net, n.id, []).value) <= STACK_CAP
  {
    hide KindOf, Unfold, Depth;
    if net.Ins(n.id) != [] {
      var x := net.Ins(n.id)[0];
      var q := DeepWalk(net, x, []);
      assert q[0] == ([] + [x])[0];
      assert FromInput(net, n, q);
      NeedWithinDepth(Unfold(net, x, []).value);
    }
  }

  /** Every graph whose walks cross at most thirty gates fits the thirty-two cells, whatever the
      width of its gates. */
  lemma {:induction false} ThirtyGatesFit(spec: GraphSpec)
    requires Compiled(spec).Ok? && Shallow(NetOf(spec), spec.nodes)
    ensures TermsFit(TerminalsOf(spec))
  {
    hide KindOf, Unfold, Program;
    ByIdCovers(spec.nodes);
    ShallowTerminals(NetOf(spec), spec.nodes);
  }
}
