/** The compiler: recursive lowering that pushes onto one program and bumps one slot counter. */
module Compiler {
  import opened Bytecode
  import opened Graph

  /** A failure on some inputs is the failure on all of them: inputs are emitted in order. */
  lemma {:induction false} UnfoldAllFailsEarly(net: Net, ids: seq<string>, path: seq<string>, k: nat)
    requires k <= |ids| && UnfoldAll(net, ids[..k], path).Err?
    ensures UnfoldAll(net, ids, path) == UnfoldAll(net, ids[..k], path)
  {
    if k == |ids| {
      assert ids[..k] == ids;
    } else {
      var init := ids[..|ids| - 1];
      assert init[..k] == ids[..k];
      UnfoldAllFailsEarly(net, init, path, k);
    }
  }

  lemma {:induction false} UnfoldAllStep(net: Net, ids: seq<string>, path: seq<string>, k: nat)
    requires k < |ids| && UnfoldAll(net, ids[..k], path).Ok?
    ensures var ts, t := UnfoldAll(net, ids[..k], path), Unfold(net, ids[k], path);
      UnfoldAll(net, ids[..k + 1], path) == if t.Err? then Err(t.error) else Ok(ts.value + [t.value])
  {
    assert ids[..k + 1][..k] == ids[..k];
  }

  lemma {:induction false} UnfoldAllFirst(net: Net, ids: seq<string>, path: seq<string>)
    requires ids != []
    ensures var t := Unfold(net, ids[0], path);
      UnfoldAll(net, ids[..1], path) == if t.Err? then Err(t.error) else Ok([t.value])
  {
    assert ids[..0] == [];
    UnfoldAllStep(net, ids, path, 0);
    if Unfold(net, ids[0], path).Ok? {
      assert [] + [Unfold(net, ids[0], path).value] == [Unfold(net, ids[0], path).value];
    }
  }

  lemma {:induction false} LeafCode(slot: nat, i: Indicator)
    ensures Code(Price, slot) == [PushPrice] && Slots(Price) == 0
    ensures Code(Zero, slot) == [PushConst(0.0)] && Slots(Zero) == 0
    ensures Code(Leaf(i), slot) == [i.At(slot)] && Slots(Leaf(i)) == 1
  {
  }

  lemma {:induction false} GateStarts(all: bool, t: Tree, slot: nat)
    ensures Code(Gate(all, t, []), slot) == Code(t, slot) && Slots(Gate(all, t, [])) == Slots(t)
  {
  }

  /** One more input folded into a gate, after what was there before. */
  lemma {:induction false} GateGrows(before: seq<Op>, all: bool, ts: seq<Tree>, t: Tree, slot: nat)
    requires ts != []
    ensures before + Code(Gate(all, ts[0], (ts + [t])[1..]), slot)
            == before + Code(Gate(all, ts[0], ts[1..]), slot)
               + Code(t, slot + Slots(Gate(all, ts[0], ts[1..]))) + [FoldOp(all)]
    ensures Slots(Gate(all, ts[0], (ts + [t])[1..])) == Slots(Gate(all, ts[0], ts[1..])) + Slots(t)
  {
    var rest := ts[1..];
    assert (ts + [t])[1..] == rest + [t];
    assert (rest + [t])[..|rest|] == rest;
    Reassociate(before, Code(ts[0], slot), CodeFold(all, rest, slot + Slots(ts[0])),
                Code(t, slot + Slots(ts[0]) + SlotsAll(rest)), [FoldOp(all)]);
  }

  lemma {:induction false} Reassociate(a: seq<Op>, b: seq<Op>, c: seq<Op>, d: seq<Op>, e: seq<Op>)
    ensures a + (b + (c + d + e)) == a + (b + c) + d + e
  {
  }

  lemma {:induction false} CondGrows(before: seq<Op>, t: Tree, cmp: Comparison, value: real, slot: nat)
    ensures before + Code(Cond(t, cmp, value), slot) == before + Code(t, slot) + [PushConst(value)] + [cmp.AsOp()]
  {
  }

  class Lowerer {
    const byId: map<string, GNode>
    const incoming: map<string, seq<string>>
    ghost const net: Net
    var prog: seq<Op>
    var nextSlot: nat
    var onStack: seq<string>

    constructor (byId: map<string, GNode>, incoming: map<string, seq<string>>, ghost net: Net)
      requires byId == net.byId
      requires forall id :: (if id in incoming then incoming[id] else []) == net.Ins(id)
      requires forall id, i :: 0 <= i < |net.Ins(id)| ==> net.Ins(id)[i] in byId
      ensures Wired() && this.net == net && prog == [] && nextSlot == 0 && onStack == []
    {
      this.byId, this.incoming, this.net := byId, incoming, net;
      prog, nextSlot, onStack := [], 0, [];
    }

    /** The maps are those of the net, and every wire comes from a known node. */
    ghost predicate Wired() {
      && byId == net.byId
      && (forall id :: (if id in incoming then incoming[id] else []) == net.Ins(id))
      && (forall id, i :: 0 <= i < |net.Ins(id)| ==> net.Ins(id)[i] in byId)
    }

    /** The emission so far: what was there, plus the code of one tree. */
    ghost predicate Emitted(r: Result<()>, t: Result<Tree>, prog0: seq<Op>, slot0: nat, stack0: seq<string>)
      reads this
    {
      && (r.Ok? <==> t.Ok?)
      && (r.Err? ==> r.error == t.error)
      && (t.Ok? ==>
            && prog == prog0 + Code(t.value, slot0)
            && nextSlot == slot0 + Slots(t.value)
            && onStack == stack0)
    }

    method Slot() returns (s: nat)
      modifies this`nextSlot
      ensures s == old(nextSlot) && nextSlot == s + 1
    {
      s := nextSlot;
      nextSlot := nextSlot + 1;
    }

    /** Emits the single input of a unary consumer: none pushes a neutral zero, more than
        one is refused. */
    method EmitUnaryInput(id: string) returns (r: Result<()>)
      requires Wired() && id in byId
      modifies this
      ensures Emitted(r, UnfoldUnary(net, id, old(onStack)), old(prog), old(nextSlot), old(onStack))
      decreases Free(net, onStack), 3, 0
    {
      var srcs := if id in incoming then incoming[id] else [];
      assert srcs == net.Ins(id);
      if |srcs| > 1 {
        return Err(TooManyInputs(id, byId[id].ntype, |srcs|));
      }
      if |srcs| == 1 {
        r := EmitNode(srcs[0]);
      } else {
        prog := prog + [PushConst(0.0)];
        r := Ok(());
      }
    }

    /** Emits a gate's inputs in order, folding each further one in as it arrives. */
    method EmitGate(id: string, all: bool) returns (r: Result<()>)
      requires Wired() && id in byId && net.Ins(id) != []
      modifies this
      ensures var ins := UnfoldAll(net, net.Ins(id), old(onStack));
        Emitted(r, if ins.Ok? then Ok(Gate(all, ins.value[0], ins.value[1..])) else Err(ins.error),
                old(prog), old(nextSlot), old(onStack))
      decreases Free(net, onStack), 3, |net.Ins(id)| + 1
    {
      hide KindOf, Unfold, UnfoldAll, Code, CodeFold, Slots, SlotsAll, FoldOp, Inputs;
      var srcs := incoming[id];
      assert srcs == net.Ins(id);
      ghost var path := onStack;
      UnfoldAllFirst(net, srcs, path);
      r := EmitNode(srcs[0]);
      if r.Err? {
        UnfoldAllFailsEarly(net, srcs, path, 1);
        return;
      }
      ghost var ts := UnfoldAll(net, srcs[..1], path).value;
      GateStarts(all, ts[0], old(nextSlot));
      assert ts[1..] == [];
      for k := 1 to |srcs|
        invariant UnfoldAll(net, srcs[..k], path) == Ok(ts)
        invariant onStack == path && r.Ok?
        invariant prog == old(prog) + Code(Gate(all, ts[0], ts[1..]), old(nextSlot))
        invariant nextSlot == old(nextSlot) + Slots(Gate(all, ts[0], ts[1..]))
      {
        UnfoldAllStep(net, srcs, path, k);
        r := EmitNode(srcs[k]);
        if r.Err? {
          UnfoldAllFailsEarly(net, srcs, path, k + 1);
          return;
        }
        prog := prog + [FoldOp(all)];
        ghost var t := Unfold(net, srcs[k], path).value;
        GateGrows(old(prog), all, ts, t, old(nextSlot));
        ts := ts + [t];
      }
      assert srcs[..|srcs|] == srcs;
    }

    /** Emits a condition: its input, the threshold, the comparison. */
    method EmitCondition(id: string, cmp: Comparison, value: real) returns (r: Result<()>)
      requires Wired() && id in byId
      modifies this
      ensures var input := UnfoldUnary(net, id, old(onStack));
        Emitted(r, if input.Ok? then Ok(Cond(input.value, cmp, value)) else Err(input.error),
                old(prog), old(nextSlot), old(onStack))
      decreases Free(net, onStack), 4, 0
    {
      hide KindOf, UnfoldUnary, Code;
      r := EmitUnaryInput(id);
      if r.Err? {
        return;
      }
      CondGrows(old(prog), UnfoldUnary(net, id, old(onStack)).value, cmp, value, old(nextSlot));
      prog := prog + [PushConst(value)];
      prog := prog + [cmp.AsOp()];
    }

    /** Emits a known node that is now on the stack of nodes being visited. */
    method EmitKnown(id: string) returns (r: Result<()>)
      requires Wired() && id in byId
      modifies this
      ensures Emitted(r, UnfoldKnown(net, id, old(onStack)), old(prog), old(nextSlot), old(onStack))
      decreases Free(net, onStack), 5, 0
    {
      hide KindOf, UnfoldAll, UnfoldUnary, Code, Slots;
      var node := byId[id];
      match KindOf(node)
      case Source =>
        LeafCode(nextSlot, EmaInd(0));
        prog := prog + [PushPrice];
        r := Ok(());
      case Indicates(i) =>
        LeafCode(nextSlot, i);
        var slot := Slot();
        prog := prog + [i.At(slot)];
        r := Ok(());
      case Compares(cmp, value) =>
        r := EmitCondition(id, cmp, value);
      case Folds(all) =>
        if (if id in incoming then incoming[id] else []) == [] {
          LeafCode(nextSlot, EmaInd(0));
          prog := prog + [PushConst(0.0)];
          r := Ok(());
        } else {
          r := EmitGate(id, all);
        }
      case Signals(_) =>
        r := EmitUnaryInput(id);
      case Unsupported =>
        if onStack != [] {
          onStack := onStack[..|onStack| - 1];
        }
        r := Err(UnknownType(node.ntype));
    }

    /** Emits a node so that it leaves exactly one value on the stack. */
    method EmitNode(id: string) returns (r: Result<()>)
      requires Wired()
      modifies this
      ensures Emitted(r, Unfold(net, id, old(onStack)), old(prog), old(nextSlot), old(onStack))
      decreases Free(net, onStack), 2, 0
    {
      hide UnfoldKnown, Code, CodeFold, Slots, SlotsAll, Inputs;
      if id in onStack {
        return Err(Cycle);
      }
      ghost var path := onStack;
      assert (path + [id])[..|path|] == path;
      onStack := onStack + [id];
      if id !in byId {
        return Err(UnknownNode(id));
      }
      FreeShrinks(net, path, id);
      r := EmitKnown(id);
      if r.Ok? {
        onStack := onStack[..|onStack| - 1];
      }
    }
  }

  // ------------------------------------------------------------ compiling a graph

  /** The node table; a later declaration of an id replaces an earlier one. */
  method Table(nodes: seq<GNode>) returns (byId: map<string, GNode>)
    ensures byId == ById(nodes)
  {
    byId := map[];
    for i := 0 to |nodes|
      invariant byId == ById(nodes[..i])
    {
      assert nodes[..i + 1][..i] == nodes[..i];
      byId := byId[nodes[i].id := nodes[i]];
    }
    assert nodes[..|nodes|] == nodes;
  }

  lemma {:induction false} FirstUnknownFailsEarly(net: Net, connections: seq<(string, string)>, k: nat)
    requires k <= |connections| && FirstUnknown(net, connections[..k]).Err?
    ensures FirstUnknown(net, connections) == FirstUnknown(net, connections[..k])
  {
    if k == |connections| {
      assert connections[..k] == connections;
    } else {
      var init := connections[..|connections| - 1];
      assert init[..k] == connections[..k];
      FirstUnknownFailsEarly(net, init, k);
    }
  }

  ghost predicate Wires(incoming: map<string, seq<string>>, connections: seq<(string, string)>) {
    forall id :: (if id in incoming then incoming[id] else []) == Inputs(connections, id)
  }

  lemma {:induction false} WiresStep(incoming: map<string, seq<string>>, connections: seq<(string, string)>, k: nat)
    requires k < |connections| && Wires(incoming, connections[..k])
    ensures var (from, to) := connections[k];
      Wires(incoming[to := (if to in incoming then incoming[to] else []) + [from]], connections[..k + 1])
  {
    assert connections[..k + 1][..k] == connections[..k];
  }

  lemma {:induction false} FirstUnknownStep(net: Net, connections: seq<(string, string)>, k: nat)
    requires k < |connections| && FirstUnknown(net, connections[..k]).Ok?
    ensures var (from, to) := connections[k];
      FirstUnknown(net, connections[..k + 1]) ==
        if from !in net.byId then Err(UnknownNode(from))
        else if to !in net.byId then Err(UnknownNode(to))
        else Ok(())
  {
    assert connections[..k + 1][..k] == connections[..k];
  }

  /** Checks that every connection end is known and collects the sources of each node. */
  method Wire(net: Net) returns (r: Result<map<string, seq<string>>>)
    ensures FirstUnknown(net, net.connections).Err? ==> r == Err(FirstUnknown(net, net.connections).error)
    ensures FirstUnknown(net, net.connections).Ok? ==> r.Ok? && Wires(r.value, net.connections)
  {
    hide Wires, FirstUnknown;
    var connections := net.connections;
    NoWires(net);
    var incoming: map<string, seq<string>> := map[];
    for i := 0 to |connections|
      invariant FirstUnknown(net, connections[..i]).Ok?
      invariant Wires(incoming, connections[..i])
    {
      FirstUnknownStep(net, connections, i);
      WiresStep(incoming, connections, i);
      var (from, to) := connections[i];
      if from !in net.byId {
        FirstUnknownFailsEarly(net, connections, i + 1);
        return Err(UnknownNode(from));
      }
      if to !in net.byId {
        FirstUnknownFailsEarly(net, connections, i + 1);
        return Err(UnknownNode(to));
      }
      incoming := incoming[to := (if to in incoming then incoming[to] else []) + [from]];
    }
    assert connections[..|connections|] == connections;
    r := Ok(incoming);
  }

  lemma {:induction false} NoWires(net: Net)
    ensures FirstUnknown(net, net.connections[..0]).Ok? && Wires(map[], net.connections[..0])
  {
  }

  /** When every end is known, every wire comes from a known node. */
  lemma {:induction false} KnownWires(net: Net, connections: seq<(string, string)>, id: string)
    requires FirstUnknown(net, connections).Ok?
    ensures forall i :: 0 <= i < |Inputs(connections, id)| ==> Inputs(connections, id)[i] in net.byId
  {
    if connections != [] {
      KnownWires(net, connections[..|connections| - 1], id);
    }
  }

  lemma {:induction false} TerminalsFailEarly(net: Net, nodes: seq<GNode>, k: nat)
    requires forall i :: 0 <= i < |nodes| ==> nodes[i].id in net.byId
    requires k <= |nodes| && Terminals(net, nodes[..k]).Err?
    ensures Terminals(net, nodes) == Terminals(net, nodes[..k])
  {
    if k == |nodes| {
      assert nodes[..k] == nodes;
    } else {
      var init := nodes[..|nodes| - 1];
      assert init[..k] == nodes[..k];
      TerminalsFailEarly(net, init, k);
    }
  }

  lemma {:induction false} TerminalsStep(net: Net, nodes: seq<GNode>, k: nat)
    requires forall i :: 0 <= i < |nodes| ==> nodes[i].id in net.byId
    requires k < |nodes| && Terminals(net, nodes[..k]).Ok?
    ensures var terms := Terminals(net, nodes[..k]).value; var t := UnfoldUnary(net, nodes[k].id, []);
      Terminals(net, nodes[..k + 1]) ==
        if !KindOf(nodes[k]).Signals? then Ok(terms)
        else if t.Err? then Err(t.error)
        else Ok(terms + [(t.value, KindOf(nodes[k]).buys)])
  {
    hide KindOf, UnfoldUnary;
    assert nodes[..k + 1][..k] == nodes[..k];
  }

  lemma {:induction false} ProgramStep(terms: seq<Terminal>, t: Tree, buys: bool)
    ensures Program(terms + [(t, buys)]) == Program(terms) + Code(t, SlotsOf(terms)) + [if buys then Buy else Sell]
    ensures SlotsOf(terms + [(t, buys)]) == SlotsOf(terms) + Slots(t)
  {
    hide Code, Slots;
    assert (terms + [(t, buys)])[..|terms|] == terms;
  }

  /** One terminal per signal node, in declared order. */
  method EmitTerminals(lo: Lowerer, nodes: seq<GNode>) returns (r: Result<()>)
    requires lo.Wired() && lo.prog == [] && lo.nextSlot == 0 && lo.onStack == []
    requires forall i :: 0 <= i < |nodes| ==> nodes[i].id in lo.byId
    modifies lo
    ensures var terms := Terminals(lo.net, nodes);
      if terms.Err? then r == Err(terms.error) else r == Ok(()) && lo.prog == Program(terms.value)
  {
    hide KindOf, UnfoldUnary, Code, Slots, Terminals, Program;
    ghost var terms: seq<Terminal> := [];
    NoTerminals(lo.net, nodes);
    for k := 0 to |nodes|
      invariant Terminals(lo.net, nodes[..k]) == Ok(terms)
      invariant lo.prog == Program(terms) && lo.nextSlot == SlotsOf(terms) && lo.onStack == []
    {
      TerminalsStep(lo.net, nodes, k);
      var kind := KindOf(nodes[k]);
      if kind.Signals? {
        r := lo.EmitUnaryInput(nodes[k].id);
        if r.Err? {
          TerminalsFailEarly(lo.net, nodes, k + 1);
          return;
        }
        ghost var t := UnfoldUnary(lo.net, nodes[k].id, []).value;
        ProgramStep(terms, t, kind.buys);
        lo.prog := lo.prog + [if kind.buys then Buy else Sell];
        terms := terms + [(t, kind.buys)];
      }
    }
    assert nodes[..|nodes|] == nodes;
    r := Ok(());
  }

  lemma {:induction false} NoTerminals(net: Net, nodes: seq<GNode>)
    requires forall i :: 0 <= i < |nodes| ==> nodes[i].id in net.byId
    ensures Terminals(net, nodes[..0]) == Ok([]) && Program([]) == [] && SlotsOf([]) == 0
  {
  }

  /** Compiles a graph: the program of its terminals, or the first error met. */
  method Compile(spec: GraphSpec) returns (r: Result<seq<Op>>)
    ensures r == Compiled(spec)
  {
    hide KindOf, Unfold, Code, Terminals;
    var byId := Table(spec.nodes);
    ByIdCovers(spec.nodes);
    var net := Net(byId, spec.connections);
    var incoming := Wire(net);
    if incoming.Err? {
      return Err(incoming.error);
    }
    forall id ensures forall i :: 0 <= i < |net.Ins(id)| ==> net.Ins(id)[i] in byId {
      KnownWires(net, spec.connections, id);
    }
    var lo := new Lowerer(byId, incoming.value, net);
    var emitted := EmitTerminals(lo, spec.nodes);
    if emitted.Err? {
      return Err(emitted.error);
    }
    r := Ok(lo.prog);
  }
}
