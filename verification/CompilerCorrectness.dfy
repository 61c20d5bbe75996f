/** Compiler correctness: a compiled program decides what the graph means, where a graph means
    one value per node and tick, each node's value being its own function of its inputs' values. */
module CompilerCorrectness {
  import opened Indicators
  import opened Bytecode
  import opened Graph
  import opened TreeCode

  // ------------------------------------------------------------ programs of terminals

  ghost predicate TermsOk(terms: seq<Terminal>) {
    forall i :: 0 <= i < |terms| ==> TreeOk(terms[i].0)
  }

  /** Every terminal's tree fits the stack. */
  ghost predicate TermsFit(terms: seq<Terminal>) {
    forall i :: 0 <= i < |terms| ==> Need(terms[i].0) <= STACK_CAP
  }

  function Fires(buys: bool, v: real): VmDecision {
    if buys then BuyAt(v) else SellAt(v)
  }

  /** The last terminal with a positive input decides. */
  function DecisionOf(sqrt: SqrtFn, terms: seq<Terminal>, hist: seq<real>): VmDecision
    requires hist != []
  {
    if terms == [] then Hold
    else
      var (t, buys) := terms[|terms| - 1];
      var v := Eval(sqrt, t, hist);
      if v > 0.0 then Fires(buys, v) else DecisionOf(sqrt, terms[..|terms| - 1], hist)
  }

  function TerminalOp(buys: bool): Op {
    if buys then Buy else Sell
  }

  /** Slot agreement for whole programs. */
  lemma {:induction false} ProgramCells(terms: seq<Terminal>)
    ensures Cells(Program(terms), 0, SlotsOf(terms))
  {
    hide Cells, Code, Slots;
    if terms == [] {
      NoCells();
    } else {
      var init := terms[..|terms| - 1];
      var (t, buys) := terms[|terms| - 1];
      ProgramCells(init);
      CodeCells(t, SlotsOf(init));
      CellsAppend(Program(init), Code(t, SlotsOf(init)), 0, SlotsOf(init), Slots(t));
      CellsOne(TerminalOp(buys), SlotsOf(init) + Slots(t));
      CellsAppend(Program(init) + Code(t, SlotsOf(init)), [TerminalOp(buys)], 0, SlotsOf(init) + Slots(t), 0);
    }
  }

  lemma {:induction false} NoCells()
    ensures Cells([], 0, 0)
  {
  }

  lemma {:induction false} TerminalRuns(sqrt: SqrtFn, buys: bool, d: VmDecision, v: real, hist: seq<real>)
    requires hist != []
    ensures AllRun([TerminalOp(buys)])
    ensures Exec(sqrt, [TerminalOp(buys)], Pushed(Machine([], d), v), hist)
            == Machine([], if v > 0.0 then Fires(buys, v) else d)
  {
    ExecOne(sqrt, TerminalOp(buys), Pushed(Machine([], d), v), hist);
  }

  /** A program runs exactly when each of its indicators does. */
  lemma {:induction false} ProgramRunsIff(terms: seq<Terminal>)
    ensures AllRun(Program(terms)) <==> TermsOk(terms)
  {
    hide Code, TreeOk;
    if terms != [] {
      var init := terms[..|terms| - 1];
      var (t, buys) := terms[|terms| - 1];
      ProgramRunsIff(init);
      CodeRunsIff(t, SlotsOf(init));
      AllRunParts(Program(init), Code(t, SlotsOf(init)));
      AllRunParts(Program(init) + Code(t, SlotsOf(init)), [TerminalOp(buys)]);
      AllRunOne(TerminalOp(buys));
      assert forall i :: 0 <= i < |init| ==> terms[i] == init[i];
    }
  }

  /** A program that fits ends with an empty stack and the last firing terminal's decision. */
  lemma {:induction false} ProgramRuns(sqrt: SqrtFn, terms: seq<Terminal>, hist: seq<real>)
    requires hist != [] && TermsOk(terms) && TermsFit(terms)
    ensures AllRun(Program(terms))
    ensures Exec(sqrt, Program(terms), RESET, hist) == Machine([], DecisionOf(sqrt, terms, hist))
  {
    hide Code, Slots, Eval, ExecOp, Need, TreeOk;
    if terms != [] {
      var init := terms[..|terms| - 1];
      var (t, buys) := terms[|terms| - 1];
      var p, q, v := Program(init), Code(t, SlotsOf(init)), Eval(sqrt, t, hist);
      var d := DecisionOf(sqrt, init, hist);
      ProgramRuns(sqrt, init, hist);
      CodeRuns(sqrt, t, SlotsOf(init), Machine([], d), hist);
      TerminalRuns(sqrt, buys, d, v, hist);
      ExecAppend(sqrt, p, q, RESET, hist);
      ExecAppend(sqrt, p + q, [TerminalOp(buys)], RESET, hist);
    }
  }

  // ------------------------------------------------------------ what a graph means

  /** One value per node. */
  type Valuation = string -> real

  function Read(val: Valuation, ids: seq<string>): (vs: seq<real>)
    ensures |vs| == |ids|
    ensures forall i :: 0 <= i < |ids| ==> vs[i] == val(ids[i])
  {
    if ids == [] then [] else Read(val, ids[..|ids| - 1]) + [val(ids[|ids| - 1])]
  }

  function FirstOr0(vs: seq<real>): real {
    if vs == [] then 0.0 else vs[0]
  }

  /** A node's value from its inputs' values. */
  function LocalValue(sqrt: SqrtFn, k: Kind, ins: seq<real>, hist: seq<real>): real
    requires hist != []
  {
    match k
    case Source => Last(hist)
    case Indicates(i) => IndicatorValue(sqrt, i, hist)
    case Compares(cmp, value) => Binary(cmp.AsOp(), FirstOr0(ins), value)
    case Folds(all) => Combine(all, ins)
    case Signals(_) => FirstOr0(ins)
    case Unsupported => 0.0
  }

  /** On a set of nodes that is closed under inputs, every node has its local value. */
  ghost predicate Respects(sqrt: SqrtFn, net: Net, val: Valuation, live: set<string>, hist: seq<real>)
    requires hist != []
  {
    forall id :: id in live ==>
      && id in net.byId
      && (forall i :: 0 <= i < |net.Operands(id)| ==> net.Operands(id)[i] in live)
      && val(id) == LocalValue(sqrt, net.Kind(id), Read(val, net.Operands(id)), hist)
  }

  /** Sharing is harmless: however often a node was copied, each copy evaluates to the node's
      one value. */
  lemma {:induction false} TreeIsValue(sqrt: SqrtFn, net: Net, val: Valuation, live: set<string>, hist: seq<real>,
                                      id: string, path: seq<string>)
    requires hist != [] && Respects(sqrt, net, val, live, hist)
    requires id in live && Unfold(net, id, path).Ok?
    ensures Eval(sqrt, Unfold(net, id, path).value, hist) == val(id)
    decreases Free(net, path), 2, 0
  {
    hide UnfoldKnown, KindOf, Eval, Respects;
    FreeShrinks(net, path, id);
    assert id in net.byId by { RespectsAt(sqrt, net, val, live, hist, id); }
    KnownIsValue(sqrt, net, val, live, hist, id, path + [id]);
  }

  lemma {:induction false} RespectsAt(sqrt: SqrtFn, net: Net, val: Valuation, live: set<string>, hist: seq<real>,
                                      id: string)
    requires hist != [] && Respects(sqrt, net, val, live, hist) && id in live
    ensures id in net.byId
    ensures forall i :: 0 <= i < |net.Operands(id)| ==> net.Operands(id)[i] in live
    ensures val(id) == LocalValue(sqrt, net.Kind(id), Read(val, net.Operands(id)), hist)
  {
    hide KindOf, LocalValue;
  }

  lemma {:induction false} KnownIsValue(sqrt: SqrtFn, net: Net, val: Valuation, live: set<string>, hist: seq<real>,
                                       id: string, path: seq<string>)
    requires hist != [] && Respects(sqrt, net, val, live, hist)
    requires id in live && id in net.byId && UnfoldKnown(net, id, path).Ok?
    ensures Eval(sqrt, UnfoldKnown(net, id, path).value, hist) == val(id)
    decreases Free(net, path), 5, 0
  {
    hide KindOf, Binary, IndicatorValue, Combine, Respects, UnfoldUnary, UnfoldAll, Inputs;
    RespectsAt(sqrt, net, val, live, hist, id);
    match net.Kind(id)
    case Source =>
    case Indicates(i) =>
    case Compares(cmp, value) => UnaryIsValue(sqrt, net, val, live, hist, id, path);
    case Folds(all) =>
      if net.Ins(id) != [] {
        AllAreValues(sqrt, net, val, live, hist, net.Ins(id), path);
        EvalSplit(sqrt, UnfoldAll(net, net.Ins(id), path).value, hist);
      } else {
        CombineNone(all);
      }
    case Signals(_) => UnaryIsValue(sqrt, net, val, live, hist, id, path);
  }

  lemma {:induction false} CombineNone(all: bool)
    ensures Combine(all, []) == 0.0
  {
  }

  lemma {:induction false} UnaryIsValue(sqrt: SqrtFn, net: Net, val: Valuation, live: set<string>, hist: seq<real>,
                                       id: string, path: seq<string>)
    requires hist != [] && Respects(sqrt, net, val, live, hist)
    requires id in net.byId && UnfoldUnary(net, id, path).Ok?
    requires forall i :: 0 <= i < |net.Ins(id)| ==> net.Ins(id)[i] in live
    ensures Eval(sqrt, UnfoldUnary(net, id, path).value, hist) == FirstOr0(Read(val, net.Ins(id)))
    decreases Free(net, path), 3, 0
  {
    hide KindOf, Binary, Reading, Combine, Unfold, Respects;
    if net.Ins(id) != [] {
      TreeIsValue(sqrt, net, val, live, hist, net.Ins(id)[0], path);
    }
  }

  lemma {:induction false} AllAreValues(sqrt: SqrtFn, net: Net, val: Valuation, live: set<string>, hist: seq<real>,
                                       ids: seq<string>, path: seq<string>)
    requires hist != [] && Respects(sqrt, net, val, live, hist)
    requires UnfoldAll(net, ids, path).Ok?
    requires forall i :: 0 <= i < |ids| ==> ids[i] in live
    ensures EvalAll(sqrt, UnfoldAll(net, ids, path).value, hist) == Read(val, ids)
    decreases Free(net, path), 3, |ids|
  {
    hide KindOf, Binary, Reading, Combine, Unfold, Respects;
    if ids != [] {
      AllAreValues(sqrt, net, val, live, hist, ids[..|ids| - 1], path);
      TreeIsValue(sqrt, net, val, live, hist, ids[|ids| - 1], path);
    }
  }

  /** Evaluating a list front to back or back to front is the same. */
  lemma {:induction false} EvalSplit(sqrt: SqrtFn, ts: seq<Tree>, hist: seq<real>)
    requires hist != [] && ts != []
    ensures EvalAll(sqrt, ts, hist) == [Eval(sqrt, ts[0], hist)] + EvalAll(sqrt, ts[1..], hist)
  {
    hide Eval;
    if |ts| > 1 {
      var init := ts[..|ts| - 1];
      EvalSplit(sqrt, init, hist);
      assert ts[1..][..|ts| - 2] == init[1..];
    }
  }

  // ------------------------------------------------------------ what a graph decides

  /** The value wired into a node, zero when there is none. */
  function InputValue(net: Net, val: Valuation, id: string): real {
    FirstOr0(Read(val, net.Ins(id)))
  }

  predicate Firing(net: Net, val: Valuation, n: GNode) {
    KindOf(n).Signals? && InputValue(net, val, n.id) > 0.0
  }

  /** The last declared signal node with a positive input wins, carrying that value. */
  ghost predicate IsDecision(net: Net, nodes: seq<GNode>, val: Valuation, d: VmDecision) {
    || (d == Hold && forall j :: 0 <= j < |nodes| ==> !Firing(net, val, nodes[j]))
    || (exists k :: 0 <= k < |nodes|
          && Firing(net, val, nodes[k])
          && d == Fires(KindOf(nodes[k]).buys, InputValue(net, val, nodes[k].id))
          && forall j :: k < j < |nodes| ==> !Firing(net, val, nodes[j]))
  }

  /** A graph decides at most one thing. */
  lemma {:induction false} DecisionUnique(net: Net, nodes: seq<GNode>, val: Valuation, d: VmDecision, e: VmDecision)
    requires IsDecision(net, nodes, val, d) && IsDecision(net, nodes, val, e)
    ensures d == e
  {
    hide Firing, InputValue;
  }

  /** Every wire into a declared signal node comes from a live node. */
  ghost predicate RootsLive(net: Net, nodes: seq<GNode>, live: set<string>) {
    forall k, i :: 0 <= k < |nodes| && KindOf(nodes[k]).Signals? && 0 <= i < |net.Ins(nodes[k].id)| ==>
      net.Ins(nodes[k].id)[i] in live
  }

  lemma {:induction false} TerminalsAreValues(sqrt: SqrtFn, net: Net, val: Valuation, live: set<string>,
                                              hist: seq<real>,
                                             nodes: seq<GNode>)
    requires hist != [] && Respects(sqrt, net, val, live, hist)
    requires forall i :: 0 <= i < |nodes| ==> nodes[i].id in net.byId
    requires Terminals(net, nodes).Ok? && RootsLive(net, nodes, live)
    ensures IsDecision(net, nodes, val, DecisionOf(sqrt, Terminals(net, nodes).value, hist))
  {
    if nodes != [] {
      var init, n := nodes[..|nodes| - 1], nodes[|nodes| - 1];
      assert RootsLive(net, init, live) by { hide KindOf; }
      TerminalsAreValues(sqrt, net, val, live, hist, init);
      if KindOf(n).Signals? {
        assert forall i :: 0 <= i < |net.Ins(n.id)| ==> net.Ins(n.id)[i] in live by { hide KindOf; }
        UnaryIsValue(sqrt, net, val, live, hist, n.id, []);
      }
      DecisionGrows(sqrt, net, val, hist, nodes);
    }
  }

  lemma {:induction false} DecisionGrows(sqrt: SqrtFn, net: Net, val: Valuation, hist: seq<real>, nodes: seq<GNode>)
    requires hist != [] && nodes != [] && forall i :: 0 <= i < |nodes| ==> nodes[i].id in net.byId
    requires var init, n := nodes[..|nodes| - 1], nodes[|nodes| - 1];
      && Terminals(net, nodes).Ok?
      && IsDecision(net, init, val, DecisionOf(sqrt, Terminals(net, init).value, hist))
      && (KindOf(n).Signals? ==>
            Eval(sqrt, UnfoldUnary(net, n.id, []).value, hist) == InputValue(net, val, n.id))
    ensures IsDecision(net, nodes, val, DecisionOf(sqrt, Terminals(net, nodes).value, hist))
  {
    hide KindOf, UnfoldUnary, Eval, InputValue, IsDecision;
    var init, n := nodes[..|nodes| - 1], nodes[|nodes| - 1];
    var before := Terminals(net, init).value;
    if KindOf(n).Signals? {
      var t := UnfoldUnary(net, n.id, []).value;
      assert Terminals(net, nodes).value == before + [(t, KindOf(n).buys)];
      assert (before + [(t, KindOf(n).buys)])[..|before|] == before;
    }
    DecisionExtends(net, init, n, val, DecisionOf(sqrt, before, hist));
    assert nodes == init + [n];
  }

  lemma {:induction false} DecisionExtends(net: Net, nodes: seq<GNode>, n: GNode, val: Valuation, d: VmDecision)
    requires IsDecision(net, nodes, val, d)
    ensures IsDecision(net, nodes + [n], val,
                       if Firing(net, val, n) then Fires(KindOf(n).buys, InputValue(net, val, n.id)) else d)
  {
    hide Firing, InputValue, KindOf;
    var all := nodes + [n];
    assert all[|nodes|] == n;
    assert forall j :: 0 <= j < |nodes| ==> all[j] == nodes[j];
  }

  /** The terminals a compiling graph has. */
  function TerminalsOf(spec: GraphSpec): seq<Terminal>
    requires Compiled(spec).Ok?
  {
    assert forall i :: 0 <= i < |spec.nodes| ==> spec.nodes[i].id in NetOf(spec).byId by { ByIdCovers(spec.nodes); }
    Terminals(NetOf(spec), spec.nodes).value
  }

  /** Slot agreement in every compiled program: the k-th stateful op carries slot k. */
  lemma {:induction false} CompiledSlots(spec: GraphSpec)
    requires Compiled(spec).Ok?
    ensures SlotsFrom(Compiled(spec).value, 0)
    ensures var ops := StatefulOps(Compiled(spec).value);
      forall k :: 0 <= k < |ops| ==> ops[k].IsStateful() && ops[k].slot == k
  {
    hide Terminals, Program, StatefulOps, SlotsFrom;
    ByIdCovers(spec.nodes);
    ProgramSlots(TerminalsOf(spec));
  }

  lemma {:induction false} ProgramSlots(terms: seq<Terminal>)
    ensures SlotsFrom(Program(terms), 0)
    ensures var ops := StatefulOps(Program(terms));
      forall k :: 0 <= k < |ops| ==> ops[k].IsStateful() && ops[k].slot == k
  {
    ProgramCells(terms);
    hide StatefulOps, SlotsFrom, Program;
    var ops := StatefulOps(Program(terms));
    forall k | 0 <= k < |ops| ensures ops[k].IsStateful() && ops[k].slot == k {
      SlotIsPosition(Program(terms), 0, k);
    }
  }

  /** Compiler correctness.  For a graph that compiles and fits the stack, and every valuation
      that gives each live node its own function of its inputs' values on this history, the
      compiled program decides what the graph decides under that valuation, and leaves the
      stack empty. */
  lemma {:induction false} CompiledMeansGraph(spec: GraphSpec, sqrt: SqrtFn, val: Valuation, live: set<string>,
                                              hist: seq<real>)
    requires hist != [] && Compiled(spec).Ok? && AllRun(Compiled(spec).value) && TermsFit(TerminalsOf(spec))
    requires Respects(sqrt, NetOf(spec), val, live, hist) && RootsLive(NetOf(spec), spec.nodes, live)
    ensures var prog := Compiled(spec).value;
      && SlotsFrom(prog, 0)
      && Exec(sqrt, prog, RESET, hist).cells == []
      && IsDecision(NetOf(spec), spec.nodes, val, Exec(sqrt, prog, RESET, hist).decision)
  {
    hide Respects, RootsLive, IsDecision, TermsFit, Terminals, Program, Exec, DecisionOf, Slots;
    ByIdCovers(spec.nodes);
    TerminalsAreValues(sqrt, NetOf(spec), val, live, hist, spec.nodes);
    ProgramRunsIff(TerminalsOf(spec));
    ProgramRuns(sqrt, TerminalsOf(spec), hist);
    ProgramCells(TerminalsOf(spec));
  }

  // ------------------------------------------------------------ a compiling graph has a meaning

  /** Unfolding depends on the path only through cycles: from fewer visited ids it succeeds
      with the same tree. */
  lemma {:induction false} UnfoldAnyPath(net: Net, id: string, path: seq<string>, less: seq<string>)
    requires Unfold(net, id, path).Ok? && forall x :: x in less ==> x in path
    ensures Unfold(net, id, less) == Unfold(net, id, path)
    decreases Free(net, path), 2, 0
  {
    hide UnfoldKnown;
    FreeShrinks(net, path, id);
    UnfoldKnownAnyPath(net, id, path + [id], less + [id]);
  }

  lemma {:induction false} UnfoldKnownAnyPath(net: Net, id: string, path: seq<string>, less: seq<string>)
    requires id in net.byId && UnfoldKnown(net, id, path).Ok? && forall x :: x in less ==> x in path
    ensures UnfoldKnown(net, id, less) == UnfoldKnown(net, id, path)
    decreases Free(net, path), 5, 0
  {
    hide KindOf, UnfoldUnary, UnfoldAll;
    match net.Kind(id)
    case Compares(_, _) => UnfoldUnaryAnyPath(net, id, path, less);
    case Signals(_) => UnfoldUnaryAnyPath(net, id, path, less);
    case Folds(_) => if net.Ins(id) != [] { UnfoldAllAnyPath(net, net.Ins(id), path, less); }
    case _ =>
  }

  lemma {:induction false} UnfoldUnaryAnyPath(net: Net, id: string, path: seq<string>, less: seq<string>)
    requires id in net.byId && UnfoldUnary(net, id, path).Ok? && forall x :: x in less ==> x in path
    ensures UnfoldUnary(net, id, less) == UnfoldUnary(net, id, path)
    decreases Free(net, path), 3, 0
  {
    hide Unfold;
    if net.Ins(id) != [] { UnfoldAnyPath(net, net.Ins(id)[0], path, less); }
  }

  lemma {:induction false} UnfoldAllAnyPath(net: Net, ids: seq<string>, path: seq<string>, less: seq<string>)
    requires UnfoldAll(net, ids, path).Ok? && forall x :: x in less ==> x in path
    ensures UnfoldAll(net, ids, less) == UnfoldAll(net, ids, path)
    decreases Free(net, path), 3, |ids|
  {
    hide Unfold;
    if ids != [] {
      UnfoldAllAnyPath(net, ids[..|ids| - 1], path, less);
      UnfoldAnyPath(net, ids[|ids| - 1], path, less);
    }
  }

  /** The nodes whose sub-graph unfolds. */
  ghost function Sound(net: Net): set<string> {
    set id | id in net.byId.Keys && Unfold(net, id, []).Ok?
  }

  /** Each sound node means the value of its tree. */
  ghost function Meaning(sqrt: SqrtFn, net: Net, hist: seq<real>): Valuation
    requires hist != []
  {
    id => MeaningAt(sqrt, net, hist, id)
  }

  function MeaningAt(sqrt: SqrtFn, net: Net, hist: seq<real>, id: string): real
    requires hist != []
  {
    var t := Unfold(net, id, []);
    if t.Ok? then Eval(sqrt, t.value, hist) else 0.0
  }

  /** The inputs of a sound node are sound and mean what its tree's branches evaluate to. */
  lemma {:induction false} OperandMeaning(sqrt: SqrtFn, net: Net, hist: seq<real>, id: string, path: seq<string>)
    requires hist != [] && Unfold(net, id, path).Ok?
    ensures id in Sound(net) && Meaning(sqrt, net, hist)(id) == Eval(sqrt, Unfold(net, id, path).value, hist)
  {
    hide KindOf, Unfold, Eval;
    UnfoldOkKnown(net, id, path);
    UnfoldAnyPath(net, id, path, []);
  }

  lemma {:induction false} UnfoldOkKnown(net: Net, id: string, path: seq<string>)
    requires Unfold(net, id, path).Ok?
    ensures id in net.byId && id !in path && Unfold(net, id, path) == UnfoldKnown(net, id, path + [id])
  {
  }

  lemma {:induction false} OperandMeanings(sqrt: SqrtFn, net: Net, hist: seq<real>, ids: seq<string>, path: seq<string>)
    requires hist != [] && UnfoldAll(net, ids, path).Ok?
    ensures forall i :: 0 <= i < |ids| ==> ids[i] in Sound(net)
    ensures EvalAll(sqrt, UnfoldAll(net, ids, path).value, hist) == Read(Meaning(sqrt, net, hist), ids)
  {
    hide KindOf, Unfold, Eval, Meaning, Sound;
    if ids != [] {
      OperandMeanings(sqrt, net, hist, ids[..|ids| - 1], path);
      OperandMeaning(sqrt, net, hist, ids[|ids| - 1], path);
      assert forall i :: 0 <= i < |ids| - 1 ==> ids[i] == ids[..|ids| - 1][i];
    }
  }

  lemma {:induction false} UnaryMeaning(sqrt: SqrtFn, net: Net, hist: seq<real>, id: string, path: seq<string>)
    requires hist != [] && id in net.byId && UnfoldUnary(net, id, path).Ok?
    ensures forall i :: 0 <= i < |net.Ins(id)| ==> net.Ins(id)[i] in Sound(net)
    ensures Eval(sqrt, UnfoldUnary(net, id, path).value, hist)
            == FirstOr0(Read(Meaning(sqrt, net, hist), net.Ins(id)))
  {
    hide KindOf, Unfold, Meaning, Sound, Binary, IndicatorValue, Combine, Inputs;
    if net.Ins(id) != [] { OperandMeaning(sqrt, net, hist, net.Ins(id)[0], path); }
  }

  lemma {:induction false} SoundMeaning(sqrt: SqrtFn, net: Net, hist: seq<real>, id: string)
    requires hist != [] && id in Sound(net)
    ensures id in net.byId
    ensures forall i :: 0 <= i < |net.Operands(id)| ==> net.Operands(id)[i] in Sound(net)
    ensures var val := Meaning(sqrt, net, hist);
      val(id) == LocalValue(sqrt, net.Kind(id), Read(val, net.Operands(id)), hist)
  {
    hide KindOf, Unfold, UnfoldUnary, UnfoldAll, Meaning, Binary, IndicatorValue, Combine, Inputs, Read;
    OperandMeaning(sqrt, net, hist, id, []);
    UnfoldOkKnown(net, id, []);
    var ins, path := net.Ins(id), [] + [id];
    match net.Kind(id)
    case Source =>
    case Indicates(i) =>
    case Compares(cmp, value) => UnaryMeaning(sqrt, net, hist, id, path);
    case Folds(all) =>
      if ins != [] {
        OperandMeanings(sqrt, net, hist, ins, path);
        EvalSplit(sqrt, UnfoldAll(net, ins, path).value, hist);
      } else {
        CombineNone(all);
      }
    case Signals(_) => UnaryMeaning(sqrt, net, hist, id, path);
  }

  /** A compiling graph has a meaning: the sound nodes are closed under inputs, each with its
      local value, and every signal is wired to sound nodes. */
  lemma {:induction false} MeaningExists(spec: GraphSpec, sqrt: SqrtFn, hist: seq<real>)
    requires hist != [] && Compiled(spec).Ok?
    ensures Respects(sqrt, NetOf(spec), Meaning(sqrt, NetOf(spec), hist), Sound(NetOf(spec)), hist)
    ensures RootsLive(NetOf(spec), spec.nodes, Sound(NetOf(spec)))
  {
    hide KindOf, Unfold, Meaning, LocalValue, Terminals, Sound;
    var net := NetOf(spec);
    forall id | id in Sound(net)
      ensures id in net.byId
      ensures forall i :: 0 <= i < |net.Operands(id)| ==> net.Operands(id)[i] in Sound(net)
      ensures Meaning(sqrt, net, hist)(id)
              == LocalValue(sqrt, net.Kind(id), Read(Meaning(sqrt, net, hist), net.Operands(id)), hist)
    {
      SoundMeaning(sqrt, net, hist, id);
    }
    ByIdCovers(spec.nodes);
    RootsAreSound(sqrt, net, hist, spec.nodes);
  }

  lemma {:induction false} RootsAreSound(sqrt: SqrtFn, net: Net, hist: seq<real>, nodes: seq<GNode>)
    requires hist != [] && forall i :: 0 <= i < |nodes| ==> nodes[i].id in net.byId
    requires Terminals(net, nodes).Ok?
    ensures RootsLive(net, nodes, Sound(net))
  {
    hide KindOf, Unfold, Sound, Inputs, Meaning, Eval;
    if nodes != [] {
      var init, n := nodes[..|nodes| - 1], nodes[|nodes| - 1];
      RootsAreSound(sqrt, net, hist, init);
      if KindOf(n).Signals? && net.Ins(n.id) != [] {
        OperandMeaning(sqrt, net, hist, net.Ins(n.id)[0], []);
        assert |net.Ins(n.id)| == 1;
      }
      hide Terminals, UnfoldUnary;
      assert forall k :: 0 <= k < |init| ==> nodes[k] == init[k];
    }
  }
}
