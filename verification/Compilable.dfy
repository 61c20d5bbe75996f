/** When a graph compiles: exactly when every connection end is known and every walk from a
    signal is free of repeats and ends at a node of known type with no more inputs than it takes. */
module Compilable {
  import opened Graph

  /** Each step of the walk goes to an operand. */
  predicate IsWalk(net: Net, p: seq<string>) {
    forall i :: 0 <= i < |p| - 1 ==> p[i + 1] in net.Operands(p[i])
  }

  predicate NoRepeat(p: seq<string>) {
    forall i, j :: 0 <= i < j < |p| ==> p[i] != p[j]
  }

  predicate GoodNode(net: Net, id: string) {
    && id in net.byId
    && !net.Kind(id).Unsupported?
    && (net.Kind(id).IsUnary() ==> |net.Ins(id)| <= 1)
  }

  predicate GoodWalk(net: Net, p: seq<string>) {
    p != [] && NoRepeat(p) && GoodNode(net, p[|p| - 1])
  }

  /** Every walk that continues p, by a first step or not at all, is good. */
  ghost predicate AllGood(net: Net, p: seq<string>) {
    forall q :: p <= q && IsWalk(net, q) ==> GoodWalk(net, q)
  }

  lemma {:induction false} NoRepeatSnoc(p: seq<string>, id: string)
    ensures NoRepeat(p + [id]) <==> NoRepeat(p) && id !in p
  {
    var q := p + [id];
    assert q[|p|] == id;
    assert forall i :: 0 <= i < |p| ==> q[i] == p[i];
    if NoRepeat(q) {
      forall i, j | 0 <= i < j < |p| ensures p[i] != p[j] { assert q[i] != q[j]; }
    }
    if id in p {
      var i :| 0 <= i < |p| && p[i] == id;
      assert q[i] == q[|p|];
    }
  }

  // ------------------------------------------------------------ success makes every walk good

  /** If a node unfolds from a path, every walk on from it is good. */
  lemma {:induction false} UnfoldOkGood(net: Net, id: string, path: seq<string>, q: seq<string>)
    requires Unfold(net, id, path).Ok? && NoRepeat(path)
    requires path + [id] <= q && IsWalk(net, q)
    ensures GoodWalk(net, q)
    decreases |q| - |path|
  {
    hide KindOf, UnfoldKnown;
    var n := |path|;
    NoRepeatSnoc(path, id);
    assert q[n] == id;
    KnownIsGood(net, id, path + [id]);
    if |q| == n + 1 {
      assert q == path + [id];
    } else {
      assert q[n + 1] in net.Operands(q[n]);
      KnownOperandOk(net, id, path + [id], q[n + 1]);
      assert path + [id] + [q[n + 1]] <= q;
      UnfoldOkGood(net, q[n + 1], path + [id], q);
    }
  }

  lemma {:induction false} KnownIsGood(net: Net, id: string, path: seq<string>)
    requires id in net.byId && UnfoldKnown(net, id, path).Ok?
    ensures GoodNode(net, id)
  {
    hide KindOf, Unfold, UnfoldAll;
  }

  lemma {:induction false} KnownOperandOk(net: Net, id: string, path: seq<string>, x: string)
    requires id in net.byId && UnfoldKnown(net, id, path).Ok? && x in net.Operands(id)
    ensures Unfold(net, x, path).Ok?
  {
    hide KindOf, Unfold;
    if net.Kind(id).Folds? {
      AllUnfold(net, net.Ins(id), path, x);
    } else {
      var i :| 0 <= i < |net.Ins(id)| && net.Ins(id)[i] == x;
    }
  }

  lemma {:induction false} AllUnfold(net: Net, ids: seq<string>, path: seq<string>, x: string)
    requires UnfoldAll(net, ids, path).Ok? && x in ids
    ensures Unfold(net, x, path).Ok?
  {
    hide Unfold;
    if x != ids[|ids| - 1] { AllUnfold(net, ids[..|ids| - 1], path, x); }
  }

  // ------------------------------------------------------------ failure shows a bad walk

  /** The error names what is wrong with the node it was met at. */
  predicate Blames(net: Net, e: CompileError, id: string) {
    match e
    case Cycle => true
    case UnknownNode(x) => x == id && id !in net.byId
    case UnknownType(t) => id in net.byId && t == net.byId[id].ntype && net.Kind(id).Unsupported?
    case TooManyInputs(x, t, got) =>
      && x == id && id in net.byId && t == net.byId[id].ntype && net.Kind(id).IsUnary()
      && got == |net.Ins(id)| && got > 1
  }

  /** A walk that is bad, and why: a cycle error comes with a repeated node, any other with the last
      node to blame. */
  predicate Shows(net: Net, e: CompileError, q: seq<string>) {
    && IsWalk(net, q) && !GoodWalk(net, q) && q != []
    && (e.Cycle? ==> !NoRepeat(q))
    && Blames(net, e, q[|q| - 1])
  }

  lemma {:induction false} WalkSnoc(net: Net, p: seq<string>, id: string)
    requires IsWalk(net, p) && (p != [] ==> id in net.Operands(p[|p| - 1]))
    ensures IsWalk(net, p + [id])
  {
    var q := p + [id];
    forall i | 0 <= i < |q| - 1 ensures q[i + 1] in net.Operands(q[i]) {
      if i < |p| - 1 { assert q[i + 1] == p[i + 1]; }
    }
  }

  lemma {:induction false} UnfoldErrBad(net: Net, id: string, path: seq<string>) returns (q: seq<string>)
    requires IsWalk(net, path) && (path != [] ==> id in net.Operands(path[|path| - 1]))
    requires Unfold(net, id, path).Err?
    ensures path + [id] <= q && Shows(net, Unfold(net, id, path).error, q)
    decreases Free(net, path), 2, 0
  {
    hide KindOf, UnfoldKnown;
    q := path + [id];
    WalkSnoc(net, path, id);
    NoRepeatSnoc(path, id);
    assert q[|path|] == id;
    if id !in path && id in net.byId {
      FreeShrinks(net, path, id);
      q := KnownErrBad(net, id, path + [id]);
    }
  }

  lemma {:induction false} KnownErrBad(net: Net, id: string, path: seq<string>) returns (q: seq<string>)
    requires id in net.byId && IsWalk(net, path) && path != [] && path[|path| - 1] == id
    requires UnfoldKnown(net, id, path).Err?
    ensures path <= q && Shows(net, UnfoldKnown(net, id, path).error, q)
    decreases Free(net, path), 5, 0
  {
    hide KindOf, Unfold, UnfoldAll;
    q := path;
    if net.Kind(id).Folds? {
      q := AllErrBad(net, id, net.Ins(id), path);
    } else if net.Kind(id).IsUnary() && |net.Ins(id)| == 1 {
      var x := net.Ins(id)[0];
      q := UnfoldErrBad(net, x, path);
      assert path <= path + [x] <= q;
    }
  }

  lemma {:induction false} AllErrBad(net: Net, id: string, ids: seq<string>, path: seq<string>) returns (q: seq<string>)
    requires id in net.byId && IsWalk(net, path) && path != [] && path[|path| - 1] == id
    requires forall x :: x in ids ==> x in net.Operands(id)
    requires UnfoldAll(net, ids, path).Err?
    ensures path <= q && Shows(net, UnfoldAll(net, ids, path).error, q)
    decreases Free(net, path), 3, |ids|
  {
    hide KindOf, Unfold;
    var init, x := ids[..|ids| - 1], ids[|ids| - 1];
    if UnfoldAll(net, init, path).Err? {
      q := AllErrBad(net, id, init, path);
    } else {
      q := UnfoldErrBad(net, x, path);
      assert path <= path + [x] <= q;
    }
  }

  // ------------------------------------------------------------ whole graphs

  predicate KnownEnds(net: Net, connections: seq<(string, string)>) {
    forall i :: 0 <= i < |connections| ==> connections[i].0 in net.byId && connections[i].1 in net.byId
  }

  /** Declared signal nodes take at most one input, and every walk from it is good. */
  ghost predicate GoodSignal(net: Net, n: GNode) {
    KindOf(n).Signals? ==>
      && |net.Ins(n.id)| <= 1
      && forall x :: x in net.Ins(n.id) ==> AllGood(net, [x])
  }

  ghost predicate CanCompile(spec: GraphSpec) {
    && KnownEnds(NetOf(spec), spec.connections)
    && forall i :: 0 <= i < |spec.nodes| ==> GoodSignal(NetOf(spec), spec.nodes[i])
  }

  lemma {:induction false} EndsKnownIff(net: Net, connections: seq<(string, string)>)
    ensures FirstUnknown(net, connections).Ok? <==> KnownEnds(net, connections)
  {
    if connections != [] {
      var init := connections[..|connections| - 1];
      EndsKnownIff(net, init);
      var (from, to) := connections[|connections| - 1];
      assert KnownEnds(net, connections) <==> (KnownEnds(net, init) && from in net.byId && to in net.byId);
    }
  }

  lemma {:induction false} SignalIff(net: Net, n: GNode)
    requires n.id in net.byId && KindOf(n).Signals?
    ensures UnfoldUnary(net, n.id, []).Ok? <==> GoodSignal(net, n)
  {
    hide KindOf, Unfold;
    var ins := net.Ins(n.id);
    if |ins| == 1 {
      var x := ins[0];
      if Unfold(net, x, []).Ok? {
        forall q | [x] <= q && IsWalk(net, q) ensures GoodWalk(net, q) {
          assert [] + [x] == [x];
          UnfoldOkGood(net, x, [], q);
        }
      } else {
        var q := UnfoldErrBad(net, x, []);
        assert [x] == [] + [x] <= q;
      }
    }
  }

  lemma {:induction false} TerminalsIff(net: Net, nodes: seq<GNode>)
    requires forall i :: 0 <= i < |nodes| ==> nodes[i].id in net.byId
    ensures Terminals(net, nodes).Ok? <==> forall i :: 0 <= i < |nodes| ==> GoodSignal(net, nodes[i])
  {
    hide KindOf, UnfoldUnary, AllGood;
    if nodes != [] {
      var init, n := nodes[..|nodes| - 1], nodes[|nodes| - 1];
      TerminalsIff(net, init);
      if KindOf(n).Signals? { SignalIff(net, n); }
      assert forall i :: 0 <= i < |init| ==> init[i] == nodes[i];
    }
  }

  /** A graph compiles if and only if all its connection ends are known and every walk from a
      signal, through the inputs of conditions, gates and signals, is good. */
  lemma {:induction false} CompilesIff(spec: GraphSpec)
    ensures Compiled(spec).Ok? <==> CanCompile(spec)
  {
    hide KindOf, UnfoldUnary, GoodSignal, Program;
    ByIdCovers(spec.nodes);
    EndsKnownIff(NetOf(spec), spec.connections);
    TerminalsIff(NetOf(spec), spec.nodes);
  }

  lemma {:induction false} TerminalsErrBad(net: Net, nodes: seq<GNode>) returns (n: GNode, q: seq<string>)
    requires forall i :: 0 <= i < |nodes| ==> nodes[i].id in net.byId && nodes[i].id == net.byId[nodes[i].id].id
    requires Terminals(net, nodes).Err?
    ensures n in nodes && KindOf(n).Signals?
    ensures var e := Terminals(net, nodes).error;
      if q == [] then e == TooManyInputs(n.id, net.byId[n.id].ntype, |net.Ins(n.id)|) && |net.Ins(n.id)| > 1
      else q[0] in net.Ins(n.id) && Shows(net, e, q)
  {
    hide KindOf, Unfold, Shows;
    var init := nodes[..|nodes| - 1];
    n := nodes[|nodes| - 1];
    q := [];
    if Terminals(net, init).Err? {
      n, q := TerminalsErrBad(net, init);
    } else if |net.Ins(n.id)| == 1 {
      var x := net.Ins(n.id)[0];
      NoWalkYet(net);
      q := UnfoldErrBad(net, x, []);
      assert [] + [x] <= q && q[0] == ([] + [x])[0];
    }
  }

  lemma {:induction false} NoWalkYet(net: Net)
    ensures IsWalk(net, [])
  {
  }

  /** The first connection end, in reading order, that is unknown. */
  predicate FirstBadEnd(net: Net, connections: seq<(string, string)>, i: nat, x: string) {
    && i < |connections|
    && (forall j :: 0 <= j < i ==> connections[j].0 in net.byId && connections[j].1 in net.byId)
    && x == (if connections[i].0 !in net.byId then connections[i].0 else connections[i].1)
    && x !in net.byId
  }

  lemma {:induction false} EndErrIsFirst(net: Net, connections: seq<(string, string)>) returns (i: nat, x: string)
    requires FirstUnknown(net, connections).Err?
    ensures FirstBadEnd(net, connections, i, x) && FirstUnknown(net, connections).error == UnknownNode(x)
  {
    var init := connections[..|connections| - 1];
    i := |connections| - 1;
    if FirstUnknown(net, init).Err? {
      i, x := EndErrIsFirst(net, init);
    } else {
      EndsKnownIff(net, init);
      assert forall j :: 0 <= j < i ==> connections[j] == init[j];
      x := if connections[i].0 !in net.byId then connections[i].0 else connections[i].1;
    }
  }

  /** Every error is real: an unknown connection end is the first there is; a signal node, or the end
      of a walk from one, has the type or the number of inputs the error names; a cycle is a walk from
      a signal that visits a node twice. */
  lemma {:induction false} ErrorIsReal(spec: GraphSpec) returns (i: nat, n: GNode, q: seq<string>)
    requires Compiled(spec).Err?
    ensures var net, e := NetOf(spec), Compiled(spec).error;
      if !KnownEnds(net, spec.connections) then e.UnknownNode? && FirstBadEnd(net, spec.connections, i, e.id)
      else
        && n in spec.nodes && n.id in net.byId && KindOf(n).Signals?
        && if q == [] then e == TooManyInputs(n.id, net.byId[n.id].ntype, |net.Ins(n.id)|) && |net.Ins(n.id)| > 1
           else q[0] in net.Ins(n.id) && Shows(net, e, q)
  {
    hide KindOf, UnfoldUnary, Program, Shows, FirstBadEnd;
    var net := NetOf(spec);
    ByIdCovers(spec.nodes);
    ByIdNamed(spec.nodes);
    EndsKnownIff(net, spec.connections);
    i, n, q := 0, GNode("", "", map[], map[]), [];
    if FirstUnknown(net, spec.connections).Err? {
      var x;
      i, x := EndErrIsFirst(net, spec.connections);
    } else {
      n, q := TerminalsErrBad(net, spec.nodes);
    }
  }

  lemma {:induction false} ByIdNamed(nodes: seq<GNode>)
    ensures forall id :: id in ById(nodes) ==> ById(nodes)[id].id == id
  {
    if nodes != [] { ByIdNamed(nodes[..|nodes| - 1]); }
  }
}
