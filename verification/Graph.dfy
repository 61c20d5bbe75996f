/** Strategy graphs, and their unfolding into expression trees. */
module Graph {
  import opened Bytecode

  datatype GNode = GNode(id: string, ntype: string, nums: map<string, real>, strs: map<string, string>)

  datatype GraphSpec = GraphSpec(nodes: seq<GNode>, connections: seq<(string, string)>)

  datatype CompileError =
    | Cycle
    | UnknownNode(id: string)
    | UnknownType(ntype: string)
    | TooManyInputs(node: string, nodeType: string, got: nat)

  datatype Result<+T> = Ok(value: T) | Err(error: CompileError) {
    predicate IsFailure() {
      Err?
    }

    function PropagateFailure<U>(): Result<U>
      requires Err?
    {
      Err(error)
    }

    function Extract(): T
      requires Ok?
    {
      value
    }
  }

  // ------------------------------------------------------------ what a node is

  datatype Indicator = EmaInd(period: nat) | MomentumInd(lookback: nat) | ReversionInd(window: nat) {
    function At(slot: nat): Op {
      match this
      case EmaInd(period) => Ema(slot, period)
      case MomentumInd(lookback) => Momentum(slot, lookback)
      case ReversionInd(window) => Reversion(slot, window)
    }
  }

  datatype Comparison = Above | Below | AtLeast | AtMost | Near {
    function AsOp(): (op: Op)
      ensures op.IsBinary()
    {
      match this
      case Above => Gt
      case Below => Lt
      case AtLeast => Ge
      case AtMost => Le
      case Near => Op.Eq
    }
  }

  datatype Kind =
    | Source
    | Indicates(indicator: Indicator)
    | Compares(cmp: Comparison, value: real)
    | Folds(all: bool)
    | Signals(buys: bool)
    | Unsupported
  {
    /** Takes at most one wired input. */
    predicate IsUnary() {
      Compares? || Signals?
    }

    predicate ReadsInputs() {
      Compares? || Signals? || Folds?
    }
  }

  const USIZE_MAX: nat := 0xFFFF_FFFF_FFFF_FFFF

  /** A float cast to an unsigned integer: toward zero, clipped at both ends. */
  function ToUsize(x: real): nat {
    if x < 1.0 then 0 else if x.Floor > USIZE_MAX then USIZE_MAX else x.Floor
  }

  function Num(n: GNode, key: string, default: real): real {
    if key in n.nums then n.nums[key] else default
  }

  function CompareOp(n: GNode): Comparison {
    var op := if "op" in n.strs then n.strs["op"] else "greater_than";
    if op == "less_than" then Below
    else if op == "greater_equal" then AtLeast
    else if op == "less_equal" then AtMost
    else if op == "equal" then Near
    else Above
  }

  function KindOf(n: GNode): Kind {
    if n.ntype == "data_source" then Source
    else if n.ntype == "ema" then Indicates(EmaInd(ToUsize(Num(n, "period", 12.0))))
    else if n.ntype == "momentum" then Indicates(MomentumInd(ToUsize(Num(n, "lookback", 16.0))))
    else if n.ntype == "reversion" then Indicates(ReversionInd(ToUsize(Num(n, "window", 64.0))))
    else if n.ntype == "condition" then Compares(CompareOp(n), Num(n, "value", 0.0))
    else if n.ntype == "and_gate" then Folds(true)
    else if n.ntype == "or_gate" then Folds(false)
    else if n.ntype == "buy_signal" then Signals(true)
    else if n.ntype == "sell_signal" then Signals(false)
    else Unsupported
  }

  /** Nodes by id; a later declaration of an id replaces an earlier one. */
  function ById(nodes: seq<GNode>): map<string, GNode> {
    if nodes == [] then map[]
    else ById(nodes[..|nodes| - 1])[nodes[|nodes| - 1].id := nodes[|nodes| - 1]]
  }

  /** The sources wired into a node, in connection order. */
  function Inputs(connections: seq<(string, string)>, id: string): seq<string> {
    if connections == [] then []
    else
      var (from, to) := connections[|connections| - 1];
      Inputs(connections[..|connections| - 1], id) + (if to == id then [from] else [])
  }

  datatype Net = Net(byId: map<string, GNode>, connections: seq<(string, string)>) {
    function Ins(id: string): seq<string> {
      Inputs(connections, id)
    }

    function Kind(id: string): Kind
      requires id in byId
    {
      KindOf(byId[id])
    }

    /** The inputs a node's value depends on; an indicator reads the price, not its wires. */
    function Operands(id: string): seq<string> {
      if id in byId && Kind(id).ReadsInputs() then Ins(id) else []
    }
  }

  function NetOf(spec: GraphSpec): Net {
    Net(ById(spec.nodes), spec.connections)
  }

  // ------------------------------------------------------------ expression trees

  /** What a node computes, with shared nodes copied. */
  datatype Tree =
    | Price
    | Zero
    | Leaf(indicator: Indicator)
    | Cond(input: Tree, cmp: Comparison, value: real)
    | Gate(all: bool, first: Tree, rest: seq<Tree>)

  /** Ids still free to visit. */
  ghost function Free(net: Net, path: seq<string>): nat {
    |net.byId.Keys - (set x | x in path)|
  }

  lemma {:induction false} FreeShrinks(net: Net, path: seq<string>, id: string)
    requires id in net.byId && id !in path
    ensures Free(net, path + [id]) < Free(net, path)
  {
    var before, after := net.byId.Keys - (set x | x in path), net.byId.Keys - (set x | x in path + [id]);
    assert after == before - {id};
    assert id in before;
  }

  /** The tree of a node reached along a path of ids being visited. */
  function Unfold(net: Net, id: string, path: seq<string>): Result<Tree>
    decreases Free(net, path), 2, 0
  {
    if id in path then Err(Cycle)
    else if id !in net.byId then Err(UnknownNode(id))
    else
      FreeShrinks(net, path, id);
      UnfoldKnown(net, id, path + [id])
  }

  /** The tree of a known node that is now on the path. */
  function UnfoldKnown(net: Net, id: string, path: seq<string>): Result<Tree>
    requires id in net.byId
    decreases Free(net, path), 5, 0
  {
    match net.Kind(id)
    case Source => Ok(Price)
    case Indicates(i) => Ok(Leaf(i))
    case Compares(cmp, value) =>
      var input :- UnfoldUnary(net, id, path);
      Ok(Cond(input, cmp, value))
    case Folds(all) =>
      if net.Ins(id) == [] then Ok(Zero)
      else
        var ins :- UnfoldAll(net, net.Ins(id), path);
        Ok(Gate(all, ins[0], ins[1..]))
    case Signals(_) => UnfoldUnary(net, id, path)
    case Unsupported => Err(UnknownType(net.byId[id].ntype))
  }

  /** The single input of a unary consumer; none reads as zero, more than one is ambiguous. */
  function UnfoldUnary(net: Net, id: string, path: seq<string>): Result<Tree>
    requires id in net.byId
    decreases Free(net, path), 3, 0
  {
    var ins := net.Ins(id);
    if |ins| > 1 then Err(TooManyInputs(id, net.byId[id].ntype, |ins|))
    else if ins == [] then Ok(Zero)
    else Unfold(net, ins[0], path)
  }

  function UnfoldAll(net: Net, ids: seq<string>, path: seq<string>): (r: Result<seq<Tree>>)
    ensures r.Ok? ==> |r.value| == |ids|
    decreases Free(net, path), 3, |ids|
  {
    if ids == [] then Ok([])
    else
      var init :- UnfoldAll(net, ids[..|ids| - 1], path);
      var t :- Unfold(net, ids[|ids| - 1], path);
      Ok(init + [t])
  }

  // ------------------------------------------------------------ the code of a tree

  /** How many state cells a tree needs. */
  function Slots(t: Tree): nat {
    match t
    case Leaf(_) => 1
    case Cond(input, _, _) => Slots(input)
    case Gate(_, first, rest) => Slots(first) + SlotsAll(rest)
    case _ => 0
  }

  function SlotsAll(ts: seq<Tree>): nat {
    if ts == [] then 0 else SlotsAll(ts[..|ts| - 1]) + Slots(ts[|ts| - 1])
  }

  function FoldOp(all: bool): Op {
    if all then And else Or
  }

  /** Operands first, then the operator; slots are given out in order from `slot`. */
  function Code(t: Tree, slot: nat): seq<Op>
    decreases t
  {
    match t
    case Price => [PushPrice]
    case Zero => [PushConst(0.0)]
    case Leaf(i) => [i.At(slot)]
    case Cond(input, cmp, value) => Code(input, slot) + [PushConst(value), cmp.AsOp()]
    case Gate(all, first, rest) => Code(first, slot) + CodeFold(all, rest, slot + Slots(first))
  }

  /** Each further input of a gate, folded in as it arrives. */
  function CodeFold(all: bool, ts: seq<Tree>, slot: nat): seq<Op>
    decreases ts
  {
    if ts == [] then []
    else
      var init := ts[..|ts| - 1];
      CodeFold(all, init, slot) + Code(ts[|ts| - 1], slot + SlotsAll(init)) + [FoldOp(all)]
  }

  /** A signal node's input tree and whether it buys. */
  type Terminal = (Tree, bool)

  function SlotsOf(terms: seq<Terminal>): nat {
    if terms == [] then 0 else SlotsOf(terms[..|terms| - 1]) + Slots(terms[|terms| - 1].0)
  }

  /** The whole program: each signal's input, then its terminal op. */
  function Program(terms: seq<Terminal>): seq<Op> {
    if terms == [] then []
    else
      var init := terms[..|terms| - 1];
      var (t, buys) := terms[|terms| - 1];
      Program(init) + Code(t, SlotsOf(init)) + [if buys then Buy else Sell]
  }

  /** The terminals of a list of declared nodes, in order. */
  function Terminals(net: Net, nodes: seq<GNode>): Result<seq<Terminal>>
    requires forall i :: 0 <= i < |nodes| ==> nodes[i].id in net.byId
  {
    if nodes == [] then Ok([])
    else
      var n := nodes[|nodes| - 1];
      var init :- Terminals(net, nodes[..|nodes| - 1]);
      if KindOf(n).Signals? then
        var t :- UnfoldUnary(net, n.id, []);
        Ok(init + [(t, KindOf(n).buys)])
      else Ok(init)
  }

  lemma {:induction false} ByIdCovers(nodes: seq<GNode>)
    ensures forall i :: 0 <= i < |nodes| ==> nodes[i].id in ById(nodes)
    ensures forall id :: id in ById(nodes) ==> exists i :: 0 <= i < |nodes| && nodes[i].id == id
  {
    if nodes != [] {
      var init := nodes[..|nodes| - 1];
      var last := nodes[|nodes| - 1];
      ByIdCovers(init);
      assert ById(nodes) == ById(init)[last.id := last];
      hide ById;
      forall i | 0 <= i < |nodes| ensures nodes[i].id in ById(nodes) {
        if i < |init| { assert init[i].id in ById(init); }
      }
      forall id | id in ById(nodes) ensures exists i :: 0 <= i < |nodes| && nodes[i].id == id {
        if id == last.id {
          assert nodes[|init|].id == id;
        } else {
          var i :| 0 <= i < |init| && init[i].id == id;
          assert nodes[i].id == id;
        }
      }
    }
  }

  /** The first connection end, in reading order, that names no node. */
  function FirstUnknown(net: Net, connections: seq<(string, string)>): Result<()> {
    if connections == [] then Ok(())
    else
      var _ :- FirstUnknown(net, connections[..|connections| - 1]);
      var (from, to) := connections[|connections| - 1];
      if from !in net.byId then Err(UnknownNode(from))
      else if to !in net.byId then Err(UnknownNode(to))
      else Ok(())
  }

  /** What compiling a graph gives: its terminals' program, or the first error met. */
  function Compiled(spec: GraphSpec): Result<seq<Op>> {
    var net := NetOf(spec);
    var _ :- FirstUnknown(net, spec.connections);
    assert forall i :: 0 <= i < |spec.nodes| ==> spec.nodes[i].id in net.byId by { ByIdCovers(spec.nodes); }
    var terms :- Terminals(net, spec.nodes);
    Ok(Program(terms))
  }
}
