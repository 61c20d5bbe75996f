/** When a compiled program can be run: exactly when every indicator that a signal depends on has
    a cell to write to. */
module Windows {
  import opened Bytecode
  import opened Graph
  import opened TreeCode
  import opened CompilerCorrectness
  import opened Compilable

  /** No reversion node with a zero window. */
  predicate HasWindow(net: Net, id: string) {
    id in net.byId && net.Kind(id).Indicates? ==> net.Kind(id).indicator.At(0).Runs()
  }

  /** Every walk from p on, by a first step or not at all, ends at a node that can run. */
  ghost predicate WindowsFrom(net: Net, p: seq<string>) {
    forall q :: p <= q && IsWalk(net, q) && q != [] ==> HasWindow(net, q[|q| - 1])
  }

  // ------------------------------------------------------------ trees that run

  lemma {:induction false} AllOkMember(net: Net, ids: seq<string>, path: seq<string>, x: string)
    requires UnfoldAll(net, ids, path).Ok? && AllOk(UnfoldAll(net, ids, path).value) && x in ids
    ensures Unfold(net, x, path).Ok? && TreeOk(Unfold(net, x, path).value)
  {
    hide Unfold, TreeOk;
    if x != ids[|ids| - 1] { AllOkMember(net, ids[..|ids| - 1], path, x); }
  }

  lemma {:induction false} OkSplit(ts: seq<Tree>)
    requires ts != []
    ensures AllOk(ts) <==> TreeOk(ts[0]) && AllOk(ts[1..])
  {
    hide TreeOk;
    if |ts| > 1 {
      OkSplit(ts[..|ts| - 1]);
      assert ts[1..][..|ts| - 2] == ts[..|ts| - 1][1..];
    }
  }

  lemma {:induction false} KnownOk(net: Net, id: string, path: seq<string>)
    requires id in net.byId && UnfoldKnown(net, id, path).Ok? && TreeOk(UnfoldKnown(net, id, path).value)
    ensures HasWindow(net, id)
    ensures forall x :: x in net.Operands(id) ==> Unfold(net, x, path).Ok? && TreeOk(Unfold(net, x, path).value)
  {
    hide KindOf, Unfold;
    forall x | x in net.Operands(id) ensures Unfold(net, x, path).Ok? && TreeOk(Unfold(net, x, path).value) {
      if net.Kind(id).Folds? {
        OkSplit(UnfoldAll(net, net.Ins(id), path).value);
        AllOkMember(net, net.Ins(id), path, x);
      } else {
        var i :| 0 <= i < |net.Ins(id)| && net.Ins(id)[i] == x;
      }
    }
  }

  /** If a node's tree runs, every walk on from it ends at a node that can. */
  lemma {:induction false} TreeOkWalks(net: Net, id: string, path: seq<string>, q: seq<string>)
    requires Unfold(net, id, path).Ok? && TreeOk(Unfold(net, id, path).value)
    requires path + [id] <= q && IsWalk(net, q)
    ensures HasWindow(net, q[|q| - 1])
    decreases |q| - |path|
  {
    hide KindOf, UnfoldKnown, TreeOk;
    var n := |path|;
    assert q[n] == id;
    KnownOk(net, id, path + [id]);
    if |q| > n + 1 {
      assert q[n + 1] in net.Operands(q[n]);
      assert path + [id] + [q[n + 1]] <= q;
      TreeOkWalks(net, q[n + 1], path + [id], q);
    }
  }

  // ------------------------------------------------------------ walks that show a tree runs

  lemma {:induction false} WalksTreeOk(net: Net, id: string, path: seq<string>)
    requires IsWalk(net, path) && (path != [] ==> id in net.Operands(path[|path| - 1]))
    requires Unfold(net, id, path).Ok? && WindowsFrom(net, path + [id])
    ensures TreeOk(Unfold(net, id, path).value)
    decreases Free(net, path), 2, 0
  {
    hide KindOf, UnfoldKnown, TreeOk;
    var on := path + [id];
    WalkSnoc(net, path, id);
    assert on <= on && on[|on| - 1] == id;
    FreeShrinks(net, path, id);
    WalksKnownOk(net, id, on);
  }

  lemma {:induction false} WalksKnownOk(net: Net, id: string, path: seq<string>)
    requires id in net.byId && IsWalk(net, path) && path != [] && path[|path| - 1] == id
    requires UnfoldKnown(net, id, path).Ok? && WindowsFrom(net, path)
    ensures TreeOk(UnfoldKnown(net, id, path).value)
    decreases Free(net, path), 5, 0
  {
    hide KindOf, Unfold, UnfoldAll;
    var ins := net.Ins(id);
    assert HasWindow(net, id) by { assert path <= path; }
    match net.Kind(id)
    case Folds(_) =>
      if ins != [] {
        WalksAllOk(net, id, ins, path);
        OkSplit(UnfoldAll(net, ins, path).value);
      }
    case Compares(_, _) => if ins != [] { WalksOn(net, path, ins[0]); WalksTreeOk(net, ins[0], path); }
    case Signals(_) => if ins != [] { WalksOn(net, path, ins[0]); WalksTreeOk(net, ins[0], path); }
    case _ =>
  }

  lemma {:induction false} WalksAllOk(net: Net, id: string, ids: seq<string>, path: seq<string>)
    requires id in net.byId && IsWalk(net, path) && path != [] && path[|path| - 1] == id
    requires forall x :: x in ids ==> x in net.Operands(id)
    requires UnfoldAll(net, ids, path).Ok? && WindowsFrom(net, path)
    ensures AllOk(UnfoldAll(net, ids, path).value)
    decreases Free(net, path), 3, |ids|
  {
    hide KindOf, Unfold, TreeOk;
    if ids != [] {
      WalksAllOk(net, id, ids[..|ids| - 1], path);
      WalksOn(net, path, ids[|ids| - 1]);
      WalksTreeOk(net, ids[|ids| - 1], path);
    }
  }

  lemma {:induction false} WalksOn(net: Net, path: seq<string>, x: string)
    requires WindowsFrom(net, path)
    ensures WindowsFrom(net, path + [x])
  {
    hide HasWindow, IsWalk;
    forall q | path + [x] <= q && IsWalk(net, q) && q != [] ensures HasWindow(net, q[|q| - 1]) {
      assert path <= path + [x] <= q;
    }
  }

  // ------------------------------------------------------------ whole graphs

  /** Every indicator a signal depends on can run. */
  ghost predicate SignalRuns(net: Net, n: GNode) {
    KindOf(n).Signals? ==> forall i :: 0 <= i < |net.Ins(n.id)| ==> WindowsFrom(net, [net.Ins(n.id)[i]])
  }

  ghost predicate WindowsOk(spec: GraphSpec) {
    forall k :: 0 <= k < |spec.nodes| ==> SignalRuns(NetOf(spec), spec.nodes[k])
  }

  lemma {:induction false} SignalRunsIff(net: Net, n: GNode)
    requires n.id in net.byId && KindOf(n).Signals? && UnfoldUnary(net, n.id, []).Ok?
    ensures TreeOk(UnfoldUnary(net, n.id, []).value) <==> SignalRuns(net, n)
  {
    hide KindOf, Unfold, TreeOk, HasWindow, IsWalk;
    var ins := net.Ins(n.id);
    if ins == [] {
      assert TreeOk(Zero) by { ZeroOk(); }
    } else {
      var x := ins[0];
      assert [] + [x] == [x];
      if TreeOk(Unfold(net, x, []).value) {
        forall q | [x] <= q && IsWalk(net, q) && q != [] ensures HasWindow(net, q[|q| - 1]) {
          TreeOkWalks(net, x, [], q);
        }
      }
      if WindowsFrom(net, [x]) {
        NoSteps(net);
        WalksTreeOk(net, x, []);
      }
    }
  }

  lemma {:induction false} ZeroOk()
    ensures TreeOk(Zero)
  {
  }

  lemma {:induction false} NoSteps(net: Net)
    ensures IsWalk(net, [])
  {
  }

  lemma {:induction false} TerminalsRunIff(net: Net, nodes: seq<GNode>)
    requires forall i :: 0 <= i < |nodes| ==> nodes[i].id in net.byId
    requires Terminals(net, nodes).Ok?
    ensures TermsOk(Terminals(net, nodes).value) <==> forall k :: 0 <= k < |nodes| ==> SignalRuns(net, nodes[k])
  {
    hide KindOf, UnfoldUnary, TreeOk, WindowsFrom;
    if nodes != [] {
      var init, n := nodes[..|nodes| - 1], nodes[|nodes| - 1];
      TerminalsRunIff(net, init);
      var before := Terminals(net, init).value;
      if KindOf(n).Signals? {
        SignalRunsIff(net, n);
        TermsOkSnoc(before, (UnfoldUnary(net, n.id, []).value, KindOf(n).buys));
      }
      assert forall k :: 0 <= k < |init| ==> nodes[k] == init[k];
    }
  }

  lemma {:induction false} TermsOkSnoc(terms: seq<Terminal>, t: Terminal)
    ensures TermsOk(terms + [t]) <==> TermsOk(terms) && TreeOk(t.0)
  {
    hide TreeOk;
    var all := terms + [t];
    assert all[|terms|] == t;
    assert forall i :: 0 <= i < |terms| ==> all[i] == terms[i];
  }

  /** A compiled program can be run if and only if no signal depends on a reversion node with a
      zero window; what no signal depends on does not matter. */
  lemma {:induction false} CompiledRunsIff(spec: GraphSpec)
    requires Compiled(spec).Ok?
    ensures AllRun(Compiled(spec).value) <==> WindowsOk(spec)
  {
    hide Terminals, Program, SignalRuns, TermsOk, AllRun;
    ByIdCovers(spec.nodes);
    TerminalsRunIff(NetOf(spec), spec.nodes);
    ProgramRunsIff(TerminalsOf(spec));
  }
}
