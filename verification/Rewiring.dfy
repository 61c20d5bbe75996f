/** The order of connections: permuting them changes bytecode and slots but not whether the graph
    compiles or can be run, nor, as long as both programs fit the stack, any decision. */
module Rewiring {
  import opened Indicators
  import opened Bytecode
  import opened Graph
  import opened TreeCode
  import opened CompilerCorrectness
  import opened Compilable
  import opened Windows

  type Wires = seq<(string, string)>

  function Cut(c: Wires, i: nat): Wires
    requires i < |c|
  {
    c[..i] + c[i + 1..]
  }

  /** Taking one connection out takes its source out of its target's inputs. */
  lemma {:induction false} InputsCut(c: Wires, i: nat, id: string)
    requires i < |c|
    ensures multiset(Inputs(c, id)) == multiset(Inputs(Cut(c, i), id)) + multiset(InputsOf(c[i], id))
  {
    hide Inputs, InputsOf;
    var n := |c| - 1;
    InputsSnoc(c[..n], c[n], id);
    assert c == c[..n] + [c[n]];
    if i < n {
      InputsCut(c[..n], i, id);
      InputsSnoc(Cut(c[..n], i), c[n], id);
      assert Cut(c, i) == Cut(c[..n], i) + [c[n]];
    } else {
      assert Cut(c, i) == c[..n];
    }
  }

  /** What one connection wires into a node. */
  function InputsOf(w: (string, string), id: string): seq<string> {
    if w.1 == id then [w.0] else []
  }

  lemma {:induction false} InputsSnoc(c: Wires, w: (string, string), id: string)
    ensures Inputs(c + [w], id) == Inputs(c, id) + InputsOf(w, id)
  {
    assert (c + [w])[..|c|] == c;
  }

  lemma {:induction false} MultisetCut(c: Wires, i: nat)
    requires i < |c|
    ensures multiset(c) == multiset(Cut(c, i)) + multiset{c[i]}
  {
    assert c == c[..i] + [c[i]] + c[i + 1..];
  }

  /** Permuted connections give every node the same inputs up to order. */
  lemma {:induction false} InputsPermuted(c: Wires, d: Wires, id: string)
    requires multiset(c) == multiset(d)
    ensures multiset(Inputs(c, id)) == multiset(Inputs(d, id))
    decreases |c|
  {
    if c == [] {
      assert |multiset(d)| == |d|;
    } else {
      var n := |c| - 1;
      assert c[n] in multiset(d);
      var i :| 0 <= i < |d| && d[i] == c[n];
      MultisetCut(c, n);
      MultisetCut(d, i);
      assert Cut(c, n) == c[..n];
      assert multiset(Cut(c, n)) == multiset(c) - multiset{c[n]};
      assert multiset(Cut(d, i)) == multiset(d) - multiset{d[i]};
      InputsPermuted(c[..n], Cut(d, i), id);
      InputsCut(c, n, id);
      InputsCut(d, i, id);
    }
  }

  predicate Permuted(xs: seq<string>, ys: seq<string>) {
    multiset(xs) == multiset(ys)
  }

  lemma {:induction false} PermutedBasics(xs: seq<string>, ys: seq<string>)
    requires Permuted(xs, ys)
    ensures |xs| == |ys| && (forall x :: x in xs <==> x in ys) && (|xs| <= 1 ==> xs == ys)
  {
    assert |multiset(xs)| == |xs| && |multiset(ys)| == |ys|;
    assert forall x :: x in xs <==> x in multiset(xs);
    assert forall x :: x in ys <==> x in multiset(ys);
    if |xs| == 1 {
      assert xs[0] in ys;
    }
  }

  lemma {:induction false} ReadMembers(val: Valuation, xs: seq<string>)
    ensures AllTrue(Read(val, xs)) <==> forall x :: x in xs ==> val(x) > 0.0
    ensures AnyTrue(Read(val, xs)) <==> exists x :: x in xs && val(x) > 0.0
  {
    var vs := Read(val, xs);
    if AnyTrue(vs) {
      var i :| 0 <= i < |vs| && vs[i] > 0.0;
      assert xs[i] in xs && val(xs[i]) > 0.0;
    }
    if x :| x in xs && val(x) > 0.0 {
      var i :| 0 <= i < |xs| && xs[i] == x;
      assert vs[i] > 0.0;
    }
    if AllTrue(vs) {
      forall x | x in xs ensures val(x) > 0.0 {
        var i :| 0 <= i < |xs| && xs[i] == x;
        assert vs[i] > 0.0;
      }
    }
  }

  /** Two or more inputs: a gate is the plain conjunction or disjunction of their truth, in any
      order; fewer inputs leave nothing to permute. */
  lemma {:induction false} GatePermutes(all: bool, val: Valuation, xs: seq<string>, ys: seq<string>)
    requires Permuted(xs, ys)
    ensures Combine(all, Read(val, xs)) == Combine(all, Read(val, ys))
    ensures |xs| >= 2 ==>
              Combine(all, Read(val, xs))
              == BoolReal(if all then forall x :: x in xs ==> val(x) > 0.0 else exists x :: x in xs && val(x) > 0.0)
  {
    PermutedBasics(xs, ys);
    ReadMembers(val, xs);
    ReadMembers(val, ys);
  }

  /** Two ways to wire the same nodes. */
  ghost predicate SameWiring(a: Net, b: Net) {
    a.byId == b.byId && multiset(a.connections) == multiset(b.connections)
  }

  lemma {:induction false} LocalPermutes(sqrt: SqrtFn, a: Net, b: Net, val: Valuation, hist: seq<real>, id: string)
    requires hist != [] && SameWiring(a, b) && id in a.byId
    ensures forall x :: x in a.Operands(id) <==> x in b.Operands(id)
    ensures |a.Ins(id)| == |b.Ins(id)|
    ensures (a.Kind(id).IsUnary() ==> |a.Ins(id)| <= 1) ==>
              LocalValue(sqrt, a.Kind(id), Read(val, a.Operands(id)), hist)
              == LocalValue(sqrt, b.Kind(id), Read(val, b.Operands(id)), hist)
  {
    hide KindOf, Binary, IndicatorValue, Combine, Inputs;
    InputsPermuted(a.connections, b.connections, id);
    PermutedBasics(a.Ins(id), b.Ins(id));
    match a.Kind(id)
    case Folds(all) => GatePermutes(all, val, a.Ins(id), b.Ins(id));
    case _ =>
  }

  lemma {:induction false} SameOperands(a: Net, b: Net, id: string)
    requires SameWiring(a, b)
    ensures forall x :: x in a.Operands(id) <==> x in b.Operands(id)
    ensures Permuted(a.Ins(id), b.Ins(id)) && |a.Ins(id)| == |b.Ins(id)|
    ensures forall x :: x in a.Ins(id) <==> x in b.Ins(id)
  {
    hide KindOf;
    InputsPermuted(a.connections, b.connections, id);
    PermutedBasics(a.Ins(id), b.Ins(id));
  }

  lemma {:induction false} WalksPermute(a: Net, b: Net, q: seq<string>)
    requires SameWiring(a, b)
    ensures IsWalk(a, q) <==> IsWalk(b, q)
    ensures GoodWalk(a, q) <==> GoodWalk(b, q)
  {
    hide KindOf;
    forall i | 0 <= i < |q| ensures (forall x :: x in a.Operands(q[i]) <==> x in b.Operands(q[i])) {
      SameOperands(a, b, q[i]);
    }
    if q != [] { SameOperands(a, b, q[|q| - 1]); }
  }

  lemma {:induction false} SignalsPermute(a: Net, b: Net, n: GNode)
    requires SameWiring(a, b)
    ensures GoodSignal(a, n) ==> GoodSignal(b, n)
  {
    hide KindOf, GoodWalk, IsWalk;
    SameOperands(a, b, n.id);
    forall q ensures (IsWalk(a, q) <==> IsWalk(b, q)) && (GoodWalk(a, q) <==> GoodWalk(b, q)) {
      WalksPermute(a, b, q);
    }
  }

  /** The same nodes with the connections in another order. */
  ghost predicate Reordered(s: GraphSpec, t: GraphSpec) {
    s.nodes == t.nodes && multiset(s.connections) == multiset(t.connections)
  }

  lemma {:induction false} CompilesPermutes(s: GraphSpec, t: GraphSpec)
    requires Reordered(s, t) && Compiled(s).Ok?
    ensures Compiled(t).Ok?
  {
    hide KindOf, GoodSignal, Terminals, Program;
    CompilesIff(s);
    CompilesIff(t);
    var a, b := NetOf(s), NetOf(t);
    forall i | 0 <= i < |t.nodes| ensures GoodSignal(b, t.nodes[i]) {
      SignalsPermute(a, b, t.nodes[i]);
    }
    forall i | 0 <= i < |t.connections| ensures t.connections[i].0 in b.byId && t.connections[i].1 in b.byId {
      assert t.connections[i] in multiset(s.connections);
      var j :| 0 <= j < |s.connections| && s.connections[j] == t.connections[i];
    }
  }

  /** A sound node is not a unary one with several inputs, so it means the same rewired. */
  lemma {:induction false} SoundIsUnambiguous(net: Net, id: string)
    requires id in Sound(net)
    ensures id in net.byId && (net.Kind(id).IsUnary() ==> |net.Ins(id)| <= 1)
  {
    hide KindOf, Unfold, UnfoldAll;
    UnfoldOkKnown(net, id, []);
  }

  lemma {:induction false} RespectsPermutes(a: Net, b: Net, sqrt: SqrtFn, val: Valuation, hist: seq<real>)
    requires SameWiring(a, b) && hist != [] && Respects(sqrt, a, val, Sound(a), hist)
    ensures Respects(sqrt, b, val, Sound(a), hist)
  {
    hide KindOf, Unfold, LocalValue, Sound;
    forall id | id in Sound(a)
      ensures id in b.byId
      ensures forall i :: 0 <= i < |b.Operands(id)| ==> b.Operands(id)[i] in Sound(a)
      ensures val(id) == LocalValue(sqrt, b.Kind(id), Read(val, b.Operands(id)), hist)
    {
      NodePermutes(a, b, sqrt, val, hist, id);
    }
  }

  lemma {:induction false} NodePermutes(a: Net, b: Net, sqrt: SqrtFn, val: Valuation, hist: seq<real>, id: string)
    requires SameWiring(a, b) && hist != [] && Respects(sqrt, a, val, Sound(a), hist) && id in Sound(a)
    ensures id in b.byId
    ensures forall i :: 0 <= i < |b.Operands(id)| ==> b.Operands(id)[i] in Sound(a)
    ensures val(id) == LocalValue(sqrt, b.Kind(id), Read(val, b.Operands(id)), hist)
  {
    hide KindOf, Unfold, LocalValue, Sound, Respects;
    RespectsAt(sqrt, a, val, Sound(a), hist, id);
    SoundIsUnambiguous(a, id);
    LocalPermutes(sqrt, a, b, val, hist, id);
    forall i | 0 <= i < |b.Operands(id)| ensures b.Operands(id)[i] in Sound(a) {
      var x := b.Operands(id)[i];
      assert x in a.Operands(id);
      var j :| 0 <= j < |a.Operands(id)| && a.Operands(id)[j] == x;
    }
  }

  lemma {:induction false} RootsPermute(a: Net, b: Net, nodes: seq<GNode>, live: set<string>)
    requires SameWiring(a, b) && RootsLive(a, nodes, live)
    ensures RootsLive(b, nodes, live)
  {
    hide KindOf;
    forall k, i | 0 <= k < |nodes| && KindOf(nodes[k]).Signals? && 0 <= i < |b.Ins(nodes[k].id)|
      ensures b.Ins(nodes[k].id)[i] in live
    {
      SameOperands(a, b, nodes[k].id);
      var x := b.Ins(nodes[k].id)[i];
      assert x in a.Ins(nodes[k].id);
      var j :| 0 <= j < |a.Ins(nodes[k].id)| && a.Ins(nodes[k].id)[j] == x;
    }
  }

  lemma {:induction false} FiringPermutes(a: Net, b: Net, val: Valuation, n: GNode)
    requires SameWiring(a, b) && (KindOf(n).Signals? ==> |a.Ins(n.id)| <= 1)
    ensures Firing(a, val, n) <==> Firing(b, val, n)
    ensures KindOf(n).Signals? ==> InputValue(a, val, n.id) == InputValue(b, val, n.id)
  {
    hide KindOf;
    SameOperands(a, b, n.id);
    PermutedBasics(a.Ins(n.id), b.Ins(n.id));
  }

  lemma {:induction false} DecisionPermutes(a: Net, b: Net, nodes: seq<GNode>, val: Valuation, d: VmDecision)
    requires SameWiring(a, b) && IsDecision(a, nodes, val, d)
    requires forall k :: 0 <= k < |nodes| ==> GoodSignal(a, nodes[k])
    ensures IsDecision(b, nodes, val, d)
  {
    hide KindOf, Firing, InputValue, AllGood;
    forall k | 0 <= k < |nodes|
      ensures Firing(a, val, nodes[k]) <==> Firing(b, val, nodes[k])
      ensures KindOf(nodes[k]).Signals? ==> InputValue(a, val, nodes[k].id) == InputValue(b, val, nodes[k].id)
    {
      FiringPermutes(a, b, val, nodes[k]);
    }
    FiringIsSignal(a, val);
  }

  lemma {:induction false} FiringIsSignal(a: Net, val: Valuation)
    ensures forall n :: Firing(a, val, n) ==> KindOf(n).Signals?
  {
    hide KindOf;
  }

  lemma {:induction false} WindowsPermute(s: GraphSpec, t: GraphSpec)
    requires Reordered(s, t) && WindowsOk(s)
    ensures WindowsOk(t)
  {
    hide KindOf, IsWalk, HasWindow;
    var a, b := NetOf(s), NetOf(t);
    forall k | 0 <= k < |t.nodes| ensures SignalRuns(b, t.nodes[k]) {
      var n := t.nodes[k];
      assert SignalRuns(a, n) by { assert s.nodes[k] == n; }
      if KindOf(n).Signals? {
        forall i | 0 <= i < |b.Ins(n.id)| ensures WindowsFrom(b, [b.Ins(n.id)[i]]) {
          var x := b.Ins(n.id)[i];
          SameOperands(a, b, n.id);
          assert x in a.Ins(n.id);
          var j :| 0 <= j < |a.Ins(n.id)| && a.Ins(n.id)[j] == x;
          WindowsFromPermute(a, b, [x]);
        }
      }
    }
  }

  lemma {:induction false} WindowsFromPermute(a: Net, b: Net, p: seq<string>)
    requires SameWiring(a, b) && WindowsFrom(a, p)
    ensures WindowsFrom(b, p)
  {
    hide KindOf, IsWalk;
    forall q | p <= q && IsWalk(b, q) && q != [] ensures HasWindow(b, q[|q| - 1]) {
      WalksPermute(a, b, q);
      assert HasWindow(a, q[|q| - 1]);
    }
  }

  lemma {:induction false} SameDecision(s: GraphSpec, t: GraphSpec, sqrt: SqrtFn, hist: seq<real>)
    requires Reordered(s, t) && hist != [] && Compiled(s).Ok? && AllRun(Compiled(s).value)
    requires Compiled(t).Ok? && AllRun(Compiled(t).value)
    requires TermsFit(TerminalsOf(s)) && TermsFit(TerminalsOf(t))
    ensures Exec(sqrt, Compiled(s).value, RESET, hist).decision == Exec(sqrt, Compiled(t).value, RESET, hist).decision
  {
    hide KindOf, Terminals, Program, Respects, RootsLive, Exec, TermsFit, IsDecision, GoodSignal, SlotsFrom, AllRun;
    var a, b := NetOf(s), NetOf(t);
    var val, live := Meaning(sqrt, a, hist), Sound(a);
    var d := Exec(sqrt, Compiled(s).value, RESET, hist).decision;
    var e := Exec(sqrt, Compiled(t).value, RESET, hist).decision;
    MeaningExists(s, sqrt, hist);
    RespectsPermutes(a, b, sqrt, val, hist);
    RootsPermute(a, b, s.nodes, live);
    CompiledMeansGraph(s, sqrt, val, live, hist);
    CompiledMeansGraph(t, sqrt, val, live, hist);
    CompilesIff(s);
    DecisionPermutes(a, b, s.nodes, val, d);
    DecisionUnique(b, s.nodes, val, d, e);
  }

  /** Permuting the connections of a graph that compiles and can be run gives another such graph,
      and when both fit the stack, the same decision on every price history. */
  lemma {:induction false} OrderOfConnectionsIsFree(s: GraphSpec, t: GraphSpec, sqrt: SqrtFn, hist: seq<real>)
    requires Reordered(s, t) && hist != [] && Compiled(s).Ok? && AllRun(Compiled(s).value)
    ensures Compiled(t).Ok? && AllRun(Compiled(t).value)
    ensures TermsFit(TerminalsOf(s)) && TermsFit(TerminalsOf(t)) ==>
              Exec(sqrt, Compiled(s).value, RESET, hist).decision == Exec(sqrt, Compiled(t).value, RESET, hist).decision
  {
    hide Compiled, NetOf, Respects, RootsLive, Exec, TermsFit, IsDecision, GoodSignal, WindowsOk, AllRun, KnownEnds;
    CompilesPermutes(s, t);
    CompiledRunsIff(s);
    CompiledRunsIff(t);
    WindowsPermute(s, t);
    if TermsFit(TerminalsOf(s)) && TermsFit(TerminalsOf(t)) { SameDecision(s, t, sqrt, hist); }
  }
}
