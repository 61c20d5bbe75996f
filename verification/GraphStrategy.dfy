/** A graph-defined strategy from end to end: compiled once, run on every tick. */
module GraphStrategy {
  import opened Indicators
  import opened Bytecode
  import opened Graph
  import opened Compiler
  import opened CompilerCorrectness
  import opened Compilable
  import opened GraphWords
  import opened Windows
  import VirtualMachine

  /** A decision is the one the graph makes on a price history, if its program fits the stack. */
  ghost predicate Decides(spec: GraphSpec, sqrt: SqrtFn, hist: seq<real>, d: VmDecision)
    requires hist != [] && Compiled(spec).Ok?
  {
    TermsFit(TerminalsOf(spec)) ==> Follows(sqrt, spec, hist, d)
  }

  /** The decision of tick k is the one the graph makes on the first k prices. */
  ghost predicate FollowsGraph(spec: GraphSpec, sqrt: SqrtFn, prices: seq<real>, decisions: seq<VmDecision>)
    requires Compiled(spec).Ok?
  {
    && |decisions| == |prices|
    && forall k :: 1 <= k <= |prices| ==> Decides(spec, sqrt, prices[..k], decisions[k - 1])
  }

  lemma {:induction false} TickFollows(spec: GraphSpec, sqrt: SqrtFn, hist: seq<real>)
    requires hist != [] && Compiled(spec).Ok? && AllRun(Compiled(spec).value)
    ensures Decides(spec, sqrt, hist, Exec(sqrt, Compiled(spec).value, RESET, hist).decision)
  {
    hide Terminals, Program, Exec, TermsFit, Follows, AllRun;
    if TermsFit(TerminalsOf(spec)) { CompiledFollows(spec, sqrt, hist); }
  }

  /** Compiles a graph and runs it on a stream of prices.  It is refused exactly when its file cannot
      be read; otherwise, if it fits the stack, every tick's decision is what the file says. */
  method RunGraph(spec: GraphSpec, sqrt: SqrtFn, prices: seq<real>) returns (r: Result<seq<VmDecision>>)
    requires Windowed(spec)
    ensures r.Ok? <==> Reads(spec)
    ensures r.Ok? ==> Compiled(spec).Ok? && FollowsGraph(spec, sqrt, prices, r.value)
  {
    hide Compiled, CanCompile, Reads, Windowed, NetOf, WindowsOk, Exec, AllRun, SlotsFrom, FollowsGraph, Decides;
    CompilesIffReads(spec);
    WindowedIff(spec);
    var compiled := Compile(spec);
    if compiled.Err? {
      return Err(compiled.error);
    }
    CompiledSlots(spec);
    CompiledRunsIff(spec);
    var vm := new VirtualMachine.Vm(compiled.value, sqrt);
    var decisions := vm.RunAll(prices);
    AllFollow(spec, sqrt, prices, decisions);
    r := Ok(decisions);
  }

  lemma {:induction false} AllFollow(spec: GraphSpec, sqrt: SqrtFn, prices: seq<real>, decisions: seq<VmDecision>)
    requires Compiled(spec).Ok? && AllRun(Compiled(spec).value)
    requires |decisions| == |prices|
    requires forall k :: 1 <= k <= |prices| ==>
               decisions[k - 1] == Exec(sqrt, Compiled(spec).value, RESET, prices[..k]).decision
    ensures FollowsGraph(spec, sqrt, prices, decisions)
  {
    hide Decides, Compiled, Exec, AllRun;
    forall k | 1 <= k <= |prices| ensures Decides(spec, sqrt, prices[..k], decisions[k - 1]) {
      TickFollows(spec, sqrt, prices[..k]);
    }
  }
}
