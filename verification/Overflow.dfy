/** Beyond the stack bound a compiled graph may decide something else: a chain of gates, each fed
    the price and the gate before it, fires when it should up to thirty-one gates and never
    from thirty-two on, because dropped pushes leave the last gates short of operands.  With each
    gate's two wires swapped it needs two cells only and always fires. */
module Overflow {
  import opened Indicators
  import opened Bytecode
  import opened Graph
  import opened TreeCode
  import opened CompilerCorrectness
  import opened Rewiring

  // ------------------------------------------------------------ the tree and its run

  /** A chain of n gates over the price, the deeper gate second or, flipped, first. */
  function Nest(n: nat, flipped: bool): Tree {
    if n == 0 then Price
    else if flipped then Gate(true, Nest(n - 1, true), [Price])
    else Gate(true, Price, [Nest(n - 1, false)])
  }

  function Times(op: Op, n: nat): seq<Op> {
    if n == 0 then [] else [op] + Times(op, n - 1)
  }

  lemma {:induction false} TimesSnoc(op: Op, n: nat)
    ensures Times(op, n) + [op] == [op] + Times(op, n)
  {
    if n > 0 { TimesSnoc(op, n - 1); }
  }

  /** All the prices are pushed first, then all the gates fold. */
  lemma {:induction false} NestCode(n: nat, slot: nat)
    ensures Code(Nest(n, false), slot) == Times(PushPrice, n + 1) + Times(And, n)
    ensures TreeOk(Nest(n, false)) && Slots(Nest(n, false)) == 0
  {
    if n > 0 {
      NestCode(n - 1, slot);
      var inner := [Nest(n - 1, false)];
      assert inner[..0] == [];
      assert CodeFold(true, inner, slot) == Code(Nest(n - 1, false), slot) + [And];
      TimesSnoc(And, n - 1);
      assert Code(Nest(n, false), slot) == [PushPrice] + (Times(PushPrice, n) + Times(And, n - 1) + [And]);
    }
  }

  lemma {:induction false} TimesRun(op: Op, n: nat)
    requires op.Runs()
    ensures AllRun(Times(op, n))
  {
    if n > 0 { TimesRun(op, n - 1); }
  }

  /** Running an op n times is running it once and then n - 1 times. */
  lemma {:induction false} ExecTimes(sqrt: SqrtFn, op: Op, n: nat, m: Machine, hist: seq<real>)
    requires hist != [] && op.Runs()
    ensures AllRun(Times(op, n))
    ensures Exec(sqrt, Times(op, n), m, hist)
            == if n == 0 then m
               else (TimesRun(op, n - 1); Exec(sqrt, Times(op, n - 1), ExecOp(sqrt, op, m, hist), hist))
  {
    hide ExecOp;
    TimesRun(op, n);
    if n > 0 { assert Times(op, n)[1..] == Times(op, n - 1); }
  }

  predicate AllPositive(cells: seq<real>) {
    forall i :: 0 <= i < |cells| ==> cells[i] > 0.0
  }

  /** Pushing a positive price n times fills the stack and no further. */
  lemma {:induction false} PushMany(sqrt: SqrtFn, n: nat, m: Machine, hist: seq<real>)
    requires hist != [] && Last(hist) > 0.0 && AllPositive(m.cells) && |m.cells| <= STACK_CAP
    ensures AllRun(Times(PushPrice, n))
    ensures var r := Exec(sqrt, Times(PushPrice, n), m, hist);
      && AllPositive(r.cells) && r.decision == m.decision
      && |r.cells| == if |m.cells| + n <= STACK_CAP then |m.cells| + n else STACK_CAP
  {
    hide Exec, ExecOp, Times, AllRun;
    ExecTimes(sqrt, PushPrice, n, m, hist);
    if n > 0 {
      PushStep(sqrt, m, hist);
      PushMany(sqrt, n - 1, m.Push(Last(hist)), hist);
    }
  }

  lemma {:induction false} PushStep(sqrt: SqrtFn, m: Machine, hist: seq<real>)
    requires hist != []
    ensures ExecOp(sqrt, PushPrice, m, hist) == m.Push(Last(hist))
  {
  }

  lemma {:induction false} AndStep(sqrt: SqrtFn, m: Machine, hist: seq<real>)
    requires hist != [] && AllPositive(m.cells) && 2 <= |m.cells| <= STACK_CAP
    ensures ExecOp(sqrt, And, m, hist) == m.(cells := m.cells[..|m.cells| - 2] + [1.0])
  {
    assert m.Drop().Drop().cells == m.cells[..|m.cells| - 2];
  }

  /** One operand is missing: it reads zero. */
  lemma {:induction false} AndShort(sqrt: SqrtFn, m: Machine, hist: seq<real>)
    requires hist != [] && |m.cells| == 1
    ensures ExecOp(sqrt, And, m, hist) == m.(cells := [0.0])
  {
    assert m.Drop().cells == [];
  }

  /** Folding positive values while there are operands left. */
  lemma {:induction false} FoldSome(sqrt: SqrtFn, n: nat, m: Machine, hist: seq<real>)
    requires hist != [] && AllPositive(m.cells) && n < |m.cells| <= STACK_CAP
    ensures AllRun(Times(And, n))
    ensures var r := Exec(sqrt, Times(And, n), m, hist);
      && r.decision == m.decision && AllPositive(r.cells) && |r.cells| == |m.cells| - n
      && (1 <= n == |m.cells| - 1 ==> r.cells == [1.0])
  {
    hide Exec, ExecOp, Times, AllRun;
    ExecTimes(sqrt, And, n, m, hist);
    if n > 0 {
      AndStep(sqrt, m, hist);
      FoldSome(sqrt, n - 1, ExecOp(sqrt, And, m, hist), hist);
      if n == 1 { ExecTimes(sqrt, And, 0, ExecOp(sqrt, And, m, hist), hist); }
    }
  }

  /** A fold short of operands stays at zero. */
  lemma {:induction false} FoldShort(sqrt: SqrtFn, n: nat, m: Machine, hist: seq<real>)
    requires hist != [] && n >= 1 && |m.cells| == 1
    ensures AllRun(Times(And, n))
    ensures Exec(sqrt, Times(And, n), m, hist) == m.(cells := [0.0])
  {
    hide Exec, ExecOp, Times, AllRun;
    ExecTimes(sqrt, And, n, m, hist);
    AndShort(sqrt, m, hist);
    if n > 1 {
      FoldShort(sqrt, n - 1, ExecOp(sqrt, And, m, hist), hist);
    } else {
      ExecTimes(sqrt, And, 0, ExecOp(sqrt, And, m, hist), hist);
    }
  }

  lemma {:induction false} TimesSplit(op: Op, n: nat, k: nat)
    requires k <= n
    ensures Times(op, n) == Times(op, k) + Times(op, n - k)
  {
    if k > 0 { TimesSplit(op, n - 1, k - 1); }
  }

  /** Folding more often than there are operands meets an empty stack, and the result is zero. */
  lemma {:induction false} FoldMany(sqrt: SqrtFn, n: nat, m: Machine, hist: seq<real>)
    requires hist != [] && AllPositive(m.cells) && 1 <= |m.cells| <= STACK_CAP && |m.cells| <= n
    ensures AllRun(Times(And, n))
    ensures Exec(sqrt, Times(And, n), m, hist) == m.(cells := [0.0])
  {
    hide Exec, ExecOp, Times, AllPositive;
    var k := |m.cells| - 1;
    FoldSome(sqrt, k, m, hist);
    FoldShort(sqrt, n - k, Exec(sqrt, Times(And, k), m, hist), hist);
    TimesSplit(And, n, k);
    ExecAppend(sqrt, Times(And, k), Times(And, n - k), m, hist);
  }

  lemma {:induction false} EvalPair(sqrt: SqrtFn, a: Tree, b: Tree, hist: seq<real>)
    requires hist != [] && Eval(sqrt, a, hist) > 0.0 && Eval(sqrt, b, hist) > 0.0
    ensures Eval(sqrt, Gate(true, a, [b]), hist) == 1.0
  {
    hide Code, IndicatorValue, Binary, Slots;
    var v, w := Eval(sqrt, a, hist), Eval(sqrt, b, hist);
    assert [b][..0] == [] && [b][0] == b;
    assert EvalAll(sqrt, [b], hist) == [w];
    assert AllTrue([v] + [w]);
  }

  lemma {:induction false} NestValue(sqrt: SqrtFn, n: nat, flipped: bool, hist: seq<real>)
    requires hist != [] && Last(hist) > 0.0 && n >= 1
    ensures Eval(sqrt, Nest(n, flipped), hist) == 1.0
  {
    hide Code, IndicatorValue, Binary, Slots;
    if n > 1 { NestValue(sqrt, n - 1, flipped, hist); }
    if flipped {
      EvalPair(sqrt, Nest(n - 1, true), Price, hist);
    } else {
      EvalPair(sqrt, Price, Nest(n - 1, false), hist);
    }
  }

  /** The flipped chain stays low, whatever its length. */
  lemma {:induction false} FlippedFits(n: nat)
    ensures Need(Nest(n, true)) <= 2 && TreeOk(Nest(n, true))
  {
    if n > 0 {
      FlippedFits(n - 1);
      assert [Price][..0] == [];
      assert NeedRest([Price]) == 2 && AllOk([Price]);
    }
  }

  lemma {:induction false} BuyRuns(sqrt: SqrtFn, m: Machine, hist: seq<real>)
    requires hist != [] && (m.cells == [1.0] || m.cells == [0.0]) && m.decision == Hold
    ensures AllRun([Buy])
    ensures Exec(sqrt, [Buy], m, hist).decision == if m.cells == [1.0] then BuyAt(1.0) else Hold
  {
    ExecOne(sqrt, Buy, m, hist);
  }

  /** The chain's pushes and folds: one true cell while they fit, a false one when they do not. */
  lemma {:induction false} PushesThenFolds(sqrt: SqrtFn, n: nat, hist: seq<real>)
    requires hist != [] && Last(hist) > 0.0 && n >= 1
    ensures AllRun(Times(PushPrice, n + 1) + Times(And, n))
    ensures Exec(sqrt, Times(PushPrice, n + 1) + Times(And, n), RESET, hist)
      == RESET.(cells := if n <= 31 then [1.0] else [0.0])
  {
    hide Exec, ExecOp, Times, AllRun;
    PushMany(sqrt, n + 1, RESET, hist);
    var full := Exec(sqrt, Times(PushPrice, n + 1), RESET, hist);
    if n < |full.cells| { FoldSome(sqrt, n, full, hist); } else { FoldMany(sqrt, n, full, hist); }
    ExecAppend(sqrt, Times(PushPrice, n + 1), Times(And, n), RESET, hist);
  }

  /** The chain's program on a positive price. */
  lemma {:induction false} NestRuns(sqrt: SqrtFn, n: nat, hist: seq<real>)
    requires hist != [] && Last(hist) > 0.0 && n >= 1
    ensures AllRun(Program([(Nest(n, false), true)]))
    ensures Exec(sqrt, Program([(Nest(n, false), true)]), RESET, hist).decision == if n <= 31 then BuyAt(1.0) else Hold
  {
    hide Exec, ExecOp, Times, Nest, Need, Slots, Code, TreeOk;
    var code := Times(PushPrice, n + 1) + Times(And, n);
    assert [(Nest(n, false), true)][..0] == [];
    NestCode(n, 0);
    assert Program([(Nest(n, false), true)]) == code + [Buy];
    PushesThenFolds(sqrt, n, hist);
    BuyRuns(sqrt, Exec(sqrt, code, RESET, hist), hist);
    ExecAppend(sqrt, code, [Buy], RESET, hist);
  }

  // ------------------------------------------------------------ the graph

  /** The price, then the gates g, gg, ggg, and so on. */
  function LevelId(i: nat): string {
    if i == 0 then "p" else seq(i, _ => 'g')
  }

  function LevelNode(i: nat): GNode {
    GNode(LevelId(i), if i == 0 then "data_source" else "and_gate", map[], map[])
  }

  const SIGNAL := GNode("s", "buy_signal", map[], map[])

  function Levels(n: nat): seq<GNode> {
    if n == 0 then [SIGNAL, LevelNode(0)] else Levels(n - 1) + [LevelNode(n)]
  }

  /** The two sources of gate n, in the order they are wired. */
  function Sources(n: nat, flipped: bool): (string, string)
    requires n > 0
  {
    if flipped then (LevelId(n - 1), "p") else ("p", LevelId(n - 1))
  }

  function Chain(n: nat, flipped: bool): seq<(string, string)> {
    if n == 0 then []
    else
      var (x, y) := Sources(n, flipped);
      Chain(n - 1, flipped) + [(x, LevelId(n)), (y, LevelId(n))]
  }

  /** n gates in a chain, the last wired to a buy signal. */
  function Deep(n: nat, flipped: bool): GraphSpec {
    GraphSpec(Levels(n), Chain(n, flipped) + [(LevelId(n), "s")])
  }

  lemma {:induction false} LevelIds(i: nat, j: nat)
    ensures LevelId(i) == LevelId(j) <==> i == j
    ensures LevelId(i) != "s"
  {
    if i > 0 { assert LevelId(i)[0] == 'g' && |LevelId(i)| == i; }
    if j > 0 { assert LevelId(j)[0] == 'g' && |LevelId(j)| == j; }
  }

  lemma {:induction false} ByIdSnoc(nodes: seq<GNode>, n: GNode)
    ensures ById(nodes + [n]) == ById(nodes)[n.id := n]
  {
    assert (nodes + [n])[..|nodes|] == nodes;
  }

  lemma {:induction false} LevelsById(n: nat, i: nat)
    requires i <= n
    ensures LevelId(i) in ById(Levels(n)) && ById(Levels(n))[LevelId(i)] == LevelNode(i)
    ensures "s" in ById(Levels(n)) && ById(Levels(n))["s"] == SIGNAL
  {
    hide LevelId, ById;
    LevelIds(n, i);
    LevelIds(n, n);
    if n == 0 {
      assert Levels(0) == [] + [SIGNAL] + [LevelNode(0)];
      ByIdSnoc([], SIGNAL);
      ByIdSnoc([] + [SIGNAL], LevelNode(0));
    } else {
      ByIdSnoc(Levels(n - 1), LevelNode(n));
      LevelsById(n - 1, if i < n then i else 0);
    }
  }

  lemma {:induction false} InputsOne(c: seq<(string, string)>, v: (string, string), id: string)
    ensures Inputs(c + [v], id) == if v.1 == id then Inputs(c, id) + [v.0] else Inputs(c, id)
  {
    assert (c + [v])[..|c|] == c;
  }

  lemma {:induction false} InputsTwo(c: seq<(string, string)>, v: (string, string), w: (string, string), id: string)
    ensures Inputs(c + [v, w], id)
            == Inputs(c, id) + (if v.1 == id then [v.0] else []) + (if w.1 == id then [w.0] else [])
  {
    hide Inputs;
    assert c + [v, w] == c + [v] + [w];
    InputsOne(c, v, id);
    InputsOne(c + [v], w, id);
  }

  lemma {:induction false} InputsNone(c: seq<(string, string)>, v: (string, string), w: (string, string), id: string)
    requires v.1 != id && w.1 != id
    ensures Inputs(c + [v, w], id) == Inputs(c, id)
  {
    hide Inputs;
    InputsTwo(c, v, w, id);
  }

  lemma {:induction false} ChainInputs(n: nat, flipped: bool, i: nat)
    ensures Inputs(Chain(n, flipped), "s") == []
    ensures Inputs(Chain(n, flipped), LevelId(i))
            == if 1 <= i <= n then [Sources(i, flipped).0, Sources(i, flipped).1] else []
  {
    if n > 0 {
      var (x, y) := Sources(n, flipped);
      var v, w := (x, LevelId(n)), (y, LevelId(n));
      assert Chain(n, flipped) == Chain(n - 1, flipped) + [v, w];
      hide LevelId, Inputs, Chain, Sources;
      ChainInputs(n - 1, flipped, i);
      LevelIds(n, i);
      InputsTwo(Chain(n - 1, flipped), v, w, LevelId(i));
      InputsNone(Chain(n - 1, flipped), v, w, "s");
    }
  }

  lemma {:induction false} DeepInputs(n: nat, flipped: bool, i: nat)
    ensures NetOf(Deep(n, flipped)).Ins("s") == [LevelId(n)]
    ensures NetOf(Deep(n, flipped)).Ins(LevelId(i))
            == if 1 <= i <= n then [Sources(i, flipped).0, Sources(i, flipped).1] else []
  {
    hide Sources, Inputs, Chain, LevelId;
    ChainInputs(n, flipped, i);
    LevelIds(i, i);
    InputsOne(Chain(n, flipped), (LevelId(n), "s"), "s");
    InputsOne(Chain(n, flipped), (LevelId(n), "s"), LevelId(i));
  }

  lemma {:induction false} LevelKinds(i: nat)
    ensures KindOf(LevelNode(i)) == if i == 0 then Source else Folds(true)
    ensures KindOf(SIGNAL) == Signals(true)
  {
  }

  /** The ids being visited are all of later levels. */
  ghost predicate Above(path: seq<string>, i: nat) {
    forall x :: x in path ==> exists j :: j > i && x == LevelId(j)
  }

  lemma {:induction false} DeepUnfolds(n: nat, flipped: bool, i: nat, path: seq<string>)
    requires i <= n && Above(path, i)
    ensures Unfold(NetOf(Deep(n, flipped)), LevelId(i), path) == Ok(Nest(i, flipped))
    decreases i
  {
    hide KindOf, ById, Levels, Chain, LevelId, Inputs;
    var net := NetOf(Deep(n, flipped));
    LevelsById(n, i);
    LevelKinds(i);
    DeepInputs(n, flipped, i);
    assert LevelId(i) !in path by { NotAbove(path, i); }
    FreeShrinks(net, path, LevelId(i));
    if i > 0 {
      var on := path + [LevelId(i)];
      AboveSnoc(path, i);
      Level0();
      DeepUnfolds(n, flipped, 0, on);
      DeepUnfolds(n, flipped, i - 1, on);
      if flipped {
        TwoUnfold(net, LevelId(i - 1), "p", on, Nest(i - 1, true), Price);
      } else {
        TwoUnfold(net, "p", LevelId(i - 1), on, Price, Nest(i - 1, false));
      }
    }
  }

  lemma {:induction false} NotAbove(path: seq<string>, i: nat)
    requires Above(path, i)
    ensures LevelId(i) !in path
  {
    hide LevelId;
    if LevelId(i) in path {
      var j :| j > i && LevelId(i) == LevelId(j);
      LevelIds(i, j);
    }
  }

  lemma {:induction false} AboveSnoc(path: seq<string>, i: nat)
    requires Above(path, i) && i > 0
    ensures Above(path + [LevelId(i)], i - 1) && Above(path + [LevelId(i)], 0)
  {
    hide LevelId;
    forall x | x in path + [LevelId(i)] ensures exists j :: j > i - 1 && x == LevelId(j) {
      if x == LevelId(i) { assert i > i - 1; }
    }
  }

  lemma {:induction false} Level0()
    ensures LevelId(0) == "p"
  {
  }

  lemma {:induction false} TwoUnfold(net: Net, x: string, y: string, path: seq<string>, t: Tree, u: Tree)
    requires Unfold(net, x, path) == Ok(t) && Unfold(net, y, path) == Ok(u)
    ensures UnfoldAll(net, [x, y], path) == Ok([t, u])
  {
    hide Unfold;
    assert [x, y][..1] == [x] && [x][..0] == [];
    assert UnfoldAll(net, [], path) == Ok([]);
    assert [] + [t] == [t] && [t] + [u] == [t, u];
    assert UnfoldAll(net, [x], path) == Ok([t]);
  }

  // ------------------------------------------------------------ the graph's program

  lemma {:induction false} LevelsShape(n: nat)
    ensures |Levels(n)| == n + 2 && Levels(n)[0] == SIGNAL
    ensures forall i :: 1 <= i < |Levels(n)| ==> Levels(n)[i] == LevelNode(i - 1)
  {
    if n > 0 { LevelsShape(n - 1); }
  }

  /** Only the first declared node is a terminal. */
  lemma {:induction false} OneTerminal(net: Net, nodes: seq<GNode>, t: Tree)
    requires nodes != [] && nodes[0] == SIGNAL && "s" in net.byId
    requires forall i :: 0 <= i < |nodes| ==> nodes[i].id in net.byId
    requires forall i :: 1 <= i < |nodes| ==> !KindOf(nodes[i]).Signals?
    requires KindOf(SIGNAL) == Signals(true) && UnfoldUnary(net, "s", []) == Ok(t)
    ensures Terminals(net, nodes) == Ok([(t, true)])
  {
    hide KindOf, UnfoldUnary;
    var init := nodes[..|nodes| - 1];
    if |nodes| == 1 {
      assert init == [] && Terminals(net, init) == Ok([]);
      assert [] + [(t, true)] == [(t, true)];
    } else {
      OneTerminal(net, init, t);
    }
  }

  lemma {:induction false} EndsAreKnown(net: Net, n: nat, flipped: bool)
    requires forall i :: 0 <= i <= n ==> LevelId(i) in net.byId
    ensures FirstUnknown(net, Chain(n, flipped)).Ok?
  {
    if n > 0 {
      Level0();
      hide LevelId, Inputs;
      EndsAreKnown(net, n - 1, flipped);
      var before := Chain(n - 1, flipped);
      var (x, y) := Sources(n, flipped);
      KnownTwo(net, before, (x, LevelId(n)), (y, LevelId(n)));
    }
  }

  lemma {:induction false} KnownTwo(net: Net, c: seq<(string, string)>, v: (string, string), w: (string, string))
    requires FirstUnknown(net, c).Ok?
    requires v.0 in net.byId && v.1 in net.byId && w.0 in net.byId && w.1 in net.byId
    ensures FirstUnknown(net, c + [v, w]).Ok?
  {
    assert (c + [v])[..|c|] == c;
    assert (c + [v, w])[..|c| + 1] == c + [v];
    assert FirstUnknown(net, c + [v]).Ok?;
  }

  lemma {:induction false} DeepCompiles(n: nat, flipped: bool)
    ensures Compiled(Deep(n, flipped)) == Ok(Program([(Nest(n, flipped), true)]))
    ensures TerminalsOf(Deep(n, flipped)) == [(Nest(n, flipped), true)]
  {
    hide KindOf, ById, LevelId, Unfold, Program, Inputs, Levels, Chain;
    var net := NetOf(Deep(n, flipped));
    ByIdCovers(Levels(n));
    DeepEnds(n, flipped);
    DeepTerminals(n, flipped);
  }

  lemma {:induction false} DeepEnds(n: nat, flipped: bool)
    ensures FirstUnknown(NetOf(Deep(n, flipped)), Deep(n, flipped).connections).Ok?
  {
    hide LevelId, ById, Levels, Inputs;
    var net := NetOf(Deep(n, flipped));
    forall i | 0 <= i <= n ensures LevelId(i) in net.byId { LevelsById(n, i); }
    LevelsById(n, 0);
    EndsAreKnown(net, n, flipped);
    hide Chain;
    var c := Deep(n, flipped).connections;
    assert c[..|Chain(n, flipped)|] == Chain(n, flipped);
  }

  lemma {:induction false} DeepTerminals(n: nat, flipped: bool)
    requires forall i :: 0 <= i < |Levels(n)| ==> Levels(n)[i].id in NetOf(Deep(n, flipped)).byId
    ensures Terminals(NetOf(Deep(n, flipped)), Levels(n)) == Ok([(Nest(n, flipped), true)])
  {
    hide KindOf, ById, LevelId, Unfold, Inputs, Levels, Chain, Terminals;
    var net := NetOf(Deep(n, flipped));
    LevelsShape(n);
    LevelsById(n, 0);
    LevelKinds(0);
    forall i | 1 <= i < |Levels(n)| ensures !KindOf(Levels(n)[i]).Signals? { LevelKinds(i - 1); }
    DeepInputs(n, flipped, n);
    DeepUnfolds(n, flipped, n, []);
    OneTerminal(net, Levels(n), Nest(n, flipped));
  }

  /** Where compilation stops being faithful.  On every positive price the chain of n gates means
      a buy, and its compiled program buys if and only if n is at most thirty-one. */
  lemma {:induction false} DeepChainFiresIff(n: nat, sqrt: SqrtFn, hist: seq<real>)
    requires n >= 1 && hist != [] && Last(hist) > 0.0
    ensures Compiled(Deep(n, false)).Ok? && AllRun(Compiled(Deep(n, false)).value)
    ensures Meaning(sqrt, NetOf(Deep(n, false)), hist)(LevelId(n)) == 1.0
    ensures Exec(sqrt, Compiled(Deep(n, false)).value, RESET, hist).decision == if n <= 31 then BuyAt(1.0) else Hold
  {
    hide Unfold, Program, Exec, Eval, TreeOk, Deep, LevelId;
    DeepCompiles(n, false);
    NestRuns(sqrt, n, hist);
    NestValue(sqrt, n, false, hist);
    DeepUnfolds(n, false, n, []);
  }

  // ------------------------------------------------------------ the same graph, wired in another order

  ghost predicate Rearranged(c: Wires, d: Wires) {
    multiset(c) == multiset(d)
  }

  lemma {:induction false} SwapLast(c: Wires, d: Wires, v: (string, string), w: (string, string))
    requires Rearranged(c, d)
    ensures Rearranged(c + [v, w], d + [w, v])
  {
    assert c + [v, w] == c + [v] + [w];
    assert d + [w, v] == d + [w] + [v];
  }

  lemma {:induction false} ChainSnoc(n: nat, flipped: bool)
    requires n > 0
    ensures var (x, y) := Sources(n, flipped);
      Chain(n, flipped) == Chain(n - 1, flipped) + [(x, LevelId(n)), (y, LevelId(n))]
  {
    hide Sources, LevelId;
  }

  lemma {:induction false} SourcesFlip(n: nat)
    requires n > 0
    ensures Sources(n, true) == (Sources(n, false).1, Sources(n, false).0)
  {
    hide LevelId;
  }

  lemma {:induction false} ChainReordered(n: nat)
    ensures Rearranged(Chain(n, false), Chain(n, true))
  {
    hide *;
    if n == 0 {
      ChainNone();
    } else {
      ChainReordered(n - 1);
      ChainStep(n);
    }
  }

  lemma {:induction false} ChainNone()
    ensures Rearranged(Chain(0, false), Chain(0, true))
  {
  }

  lemma {:induction false} ChainStep(n: nat)
    requires n > 0 && Rearranged(Chain(n - 1, false), Chain(n - 1, true))
    ensures Rearranged(Chain(n, false), Chain(n, true))
  {
    hide *;
    ChainSnoc(n, false);
    ChainSnoc(n, true);
    SourcesFlip(n);
    var (x, y) := Sources(n, false);
    SwapLast(Chain(n - 1, false), Chain(n - 1, true), (x, LevelId(n)), (y, LevelId(n)));
  }

  lemma {:induction false} FlippedRuns(n: nat, sqrt: SqrtFn, hist: seq<real>)
    requires n >= 1 && hist != [] && Last(hist) > 0.0
    ensures AllRun(Program([(Nest(n, true), true)]))
    ensures Exec(sqrt, Program([(Nest(n, true), true)]), RESET, hist).decision == BuyAt(1.0)
  {
    hide Exec, Eval, Need, TreeOk, Program, Nest;
    var terms := [(Nest(n, true), true)];
    FlippedFits(n);
    ProgramRuns(sqrt, terms, hist);
    NestValue(sqrt, n, true, hist);
    assert DecisionOf(sqrt, terms, hist) == BuyAt(1.0);
  }

  /** The order of connections stops being free with the stack bound: the chain and its flipped
      wiring are the same graph up to the order of its connections, both compile and can be run,
      and on a positive price they decide alike if and only if there are at most thirty-one gates. */
  lemma {:induction false} FlippedAgreesIff(n: nat, sqrt: SqrtFn, hist: seq<real>)
    requires n >= 1 && hist != [] && Last(hist) > 0.0
    ensures var s, t := Deep(n, false), Deep(n, true);
      && Reordered(s, t) && Compiled(s).Ok? && Compiled(t).Ok?
      && AllRun(Compiled(s).value) && AllRun(Compiled(t).value)
      && (Exec(sqrt, Compiled(s).value, RESET, hist).decision == Exec(sqrt, Compiled(t).value, RESET, hist).decision
          <==> n <= 31)
  {
    hide Program, Exec, Levels, LevelId, Chain;
    ChainReordered(n);
    DeepCompiles(n, false);
    DeepCompiles(n, true);
    NestRuns(sqrt, n, hist);
    FlippedRuns(n, sqrt, hist);
    assert multiset(Deep(n, false).connections) == multiset(Chain(n, false)) + multiset([(LevelId(n), "s")]);
    assert multiset(Deep(n, true).connections) == multiset(Chain(n, true)) + multiset([(LevelId(n), "s")]);
  }
}
