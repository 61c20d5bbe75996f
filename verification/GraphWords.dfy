/** What a strategy graph means in the words of its file: node types, property names and operator
    names as they are written there, and connections as they are listed. */
module GraphWords {
  import opened Indicators
  import opened Bytecode
  import opened Graph
  import opened TreeCode
  import opened CompilerCorrectness
  import opened Compilable
  import opened Windows

  // ------------------------------------------------------------ nodes and wires

  /** The sources wired into a node, in the order the connections are listed. */
  function Sources(connections: seq<(string, string)>, id: string): seq<string> {
    if connections == [] then []
    else (if connections[0].1 == id then [connections[0].0] else []) + Sources(connections[1..], id)
  }

  /** Node k is the one its id stands for: no later node is declared under it. */
  predicate Stands(nodes: seq<GNode>, k: nat) {
    k < |nodes| && forall j :: k < j < |nodes| ==> nodes[j].id != nodes[k].id
  }

  function Property(n: GNode, name: string, default: real): real {
    if name in n.nums then n.nums[name] else default
  }

  /** A number cast to a 64-bit count: the fraction is dropped, what is out of range is clipped. */
  predicate Counts(x: real, n: nat) {
    && (x < 1.0 ==> n == 0)
    && (1.0 <= x < 18446744073709551616.0 ==> n as real <= x < n as real + 1.0)
    && (x >= 18446744073709551616.0 ==> n == 18446744073709551615)
  }

  /** The comparison an operator name asks for; any other name, or none, asks for greater. */
  predicate Compared(op: string, a: real, b: real) {
    if op == "less_than" then a < b
    else if op == "greater_equal" then a >= b
    else if op == "less_equal" then a <= b
    else if op == "equal" then -0.0000000001 < a - b < 0.0000000001
    else a > b
  }

  /** Truth is written as one, falsehood as zero. */
  predicate Says(v: real, truth: bool) {
    v == if truth then 1.0 else 0.0
  }

  /** The value of one node, given its inputs' values, by what its type is called. */
  ghost predicate Means(sqrt: SqrtFn, n: GNode, ins: seq<real>, hist: seq<real>, v: real)
    requires hist != []
  {
    var input := if ins == [] then 0.0 else ins[0];
    && (n.ntype == "data_source" ==> v == hist[|hist| - 1])
    && (n.ntype == "ema" ==> exists p :: Counts(Property(n, "period", 12.0), p) && v == EmaOf(p, hist))
    && (n.ntype == "momentum" ==>
          exists l :: Counts(Property(n, "lookback", 16.0), l) && v == MomentumOf(l, 25.0, hist))
    && (n.ntype == "reversion" ==>
          exists w :: Counts(Property(n, "window", 64.0), w) && (w >= 1 ==> v == ReversionOf(w, sqrt, hist)))
    && (n.ntype == "condition" ==>
          var op := if "op" in n.strs then n.strs["op"] else "greater_than";
          Says(v, Compared(op, input, Property(n, "value", 0.0))))
    && (n.ntype == "and_gate" && |ins| >= 2 ==> Says(v, forall i :: 0 <= i < |ins| ==> ins[i] > 0.0))
    && (n.ntype == "or_gate" && |ins| >= 2 ==> Says(v, exists i :: 0 <= i < |ins| && ins[i] > 0.0))
    && (n.ntype in {"and_gate", "or_gate"} && |ins| < 2 ==> v == input)
    && (n.ntype in {"buy_signal", "sell_signal"} ==> v == input)
  }

  /** Types whose inputs matter: the others read the price, or nothing. */
  predicate TakesInputs(ntype: string) {
    ntype in {"condition", "and_gate", "or_gate", "buy_signal", "sell_signal"}
  }

  /** Every node among `live` is declared, has only live inputs if it takes any, and has its value. */
  ghost predicate Evaluates(sqrt: SqrtFn, spec: GraphSpec, val: Valuation, live: set<string>, hist: seq<real>)
    requires hist != []
  {
    forall id :: id in live ==>
      exists k: nat :: && Stands(spec.nodes, k) && spec.nodes[k].id == id
                       && (TakesInputs(spec.nodes[k].ntype) ==>
                             forall x :: x in Sources(spec.connections, id) ==> x in live)
                       && Means(sqrt, spec.nodes[k], Read(val, Sources(spec.connections, id)), hist, val(id))
  }

  /** The value wired into a signal node, zero when there is none. */
  function Wired(spec: GraphSpec, val: Valuation, n: GNode): real {
    var from := Sources(spec.connections, n.id);
    if from == [] then 0.0 else val(from[0])
  }

  predicate Fire(spec: GraphSpec, val: Valuation, n: GNode) {
    n.ntype in {"buy_signal", "sell_signal"} && Wired(spec, val, n) > 0.0
  }

  /** The last listed signal node with a positive input decides: a buy_signal to buy, a sell_signal to
      sell, with that input's strength; without one the tick holds. */
  ghost predicate Decided(spec: GraphSpec, val: Valuation, d: VmDecision) {
    || (d == Hold && forall j :: 0 <= j < |spec.nodes| ==> !Fire(spec, val, spec.nodes[j]))
    || (exists k :: 0 <= k < |spec.nodes| && Fire(spec, val, spec.nodes[k])
          && (forall j :: k < j < |spec.nodes| ==> !Fire(spec, val, spec.nodes[j]))
          && (spec.nodes[k].ntype == "buy_signal" ==> d == BuyAt(Wired(spec, val, spec.nodes[k])))
          && (spec.nodes[k].ntype == "sell_signal" ==> d == SellAt(Wired(spec, val, spec.nodes[k]))))
  }

  // ------------------------------------------------------------ the compiler's own terms say the same

  lemma {:induction false} SourcesSnoc(cs: seq<(string, string)>, c: (string, string), id: string)
    ensures Sources(cs + [c], id) == Sources(cs, id) + if c.1 == id then [c.0] else []
  {
    if cs == [] {
      assert [c][1..] == [] && cs + [c] == [c];
    } else {
      assert (cs + [c])[1..] == cs[1..] + [c];
      SourcesSnoc(cs[1..], c, id);
    }
  }

  lemma {:induction false} InputsAreSources(cs: seq<(string, string)>, id: string)
    ensures Inputs(cs, id) == Sources(cs, id)
  {
    if cs != [] {
      var init, c := cs[..|cs| - 1], cs[|cs| - 1];
      InputsAreSources(init, id);
      SourcesSnoc(init, c, id);
      assert cs == init + [c];
    }
  }

  lemma {:induction false} NodeStands(nodes: seq<GNode>, id: string) returns (k: nat)
    requires id in ById(nodes)
    ensures Stands(nodes, k) && nodes[k].id == id && ById(nodes)[id] == nodes[k]
  {
    var n := |nodes| - 1;
    if nodes[n].id == id {
      k := n;
    } else {
      k := NodeStands(nodes[..n], id);
      assert nodes[..n][k] == nodes[k];
      forall j | k < j < |nodes| ensures nodes[j].id != id {
        if j < n { assert nodes[..n][j] == nodes[j]; }
      }
    }
  }

  lemma {:induction false} CastCounts(x: real)
    ensures Counts(x, ToUsize(x))
  {
  }

  lemma {:induction false} ConditionMeans(sqrt: SqrtFn, n: GNode, ins: seq<real>, hist: seq<real>)
    requires hist != [] && n.ntype == "condition"
    ensures var op := if "op" in n.strs then n.strs["op"] else "greater_than";
      var input := if ins == [] then 0.0 else ins[0];
      Says(LocalValue(sqrt, KindOf(n), ins, hist), Compared(op, input, Property(n, "value", 0.0)))
  {
  }

  lemma {:induction false} IndicatorMeans(sqrt: SqrtFn, n: GNode, ins: seq<real>, hist: seq<real>)
    requires hist != [] && n.ntype in {"ema", "momentum", "reversion"}
    ensures Means(sqrt, n, ins, hist, LocalValue(sqrt, KindOf(n), ins, hist))
  {
    CastCounts(Property(n, "period", 12.0));
    CastCounts(Property(n, "lookback", 16.0));
    CastCounts(Property(n, "window", 64.0));
    hide Counts, ToUsize, EmaOf, MomentumOf, ReversionOf, Compared, Combine, Says, Binary, CompareOp;
  }

  lemma {:induction false} GateMeans(sqrt: SqrtFn, n: GNode, ins: seq<real>, hist: seq<real>)
    requires hist != [] && n.ntype in {"and_gate", "or_gate"}
    ensures Means(sqrt, n, ins, hist, LocalValue(sqrt, KindOf(n), ins, hist))
  {
    hide Counts, ToUsize, EmaOf, MomentumOf, ReversionOf, Compared, Property, Binary, CompareOp;
  }

  lemma {:induction false} KindMeans(sqrt: SqrtFn, n: GNode, ins: seq<real>, hist: seq<real>)
    requires hist != []
    ensures Means(sqrt, n, ins, hist, LocalValue(sqrt, KindOf(n), ins, hist))
  {
    if n.ntype in {"ema", "momentum", "reversion"} {
      IndicatorMeans(sqrt, n, ins, hist);
    } else if n.ntype in {"and_gate", "or_gate"} {
      GateMeans(sqrt, n, ins, hist);
    } else {
      if n.ntype == "condition" { ConditionMeans(sqrt, n, ins, hist); }
      hide Counts, Compared, Combine, Says, Binary, CompareOp, Property, IndicatorValue;
    }
  }

  lemma {:induction false} KindTakesInputs(n: GNode)
    ensures KindOf(n).ReadsInputs() <==> TakesInputs(n.ntype)
    ensures KindOf(n).Signals? <==> n.ntype in {"buy_signal", "sell_signal"}
    ensures KindOf(n).Signals? ==> (KindOf(n).buys <==> n.ntype == "buy_signal")
  {
  }

  lemma {:induction false} RespectsEvaluates(sqrt: SqrtFn, spec: GraphSpec, val: Valuation, live: set<string>,
                                             hist: seq<real>)
    requires hist != [] && Respects(sqrt, NetOf(spec), val, live, hist)
    ensures Evaluates(sqrt, spec, val, live, hist)
  {
    hide Means, KindOf, LocalValue, ById, TakesInputs, Respects, Inputs;
    var net := NetOf(spec);
    forall id | id in live
      ensures exists k: nat :: && Stands(spec.nodes, k) && spec.nodes[k].id == id
                               && (TakesInputs(spec.nodes[k].ntype) ==>
                                     forall x :: x in Sources(spec.connections, id) ==> x in live)
                               && Means(sqrt, spec.nodes[k], Read(val, Sources(spec.connections, id)), hist, val(id))
    {
      RespectsAt(sqrt, net, val, live, hist, id);
      var k := NodeStands(spec.nodes, id);
      InputsAreSources(spec.connections, id);
      KindTakesInputs(spec.nodes[k]);
      MeansAt(sqrt, spec.nodes[k], Read(val, Sources(spec.connections, id)), hist);
    }
  }

  /** A node that takes no inputs means the same without them. */
  lemma {:induction false} MeansAt(sqrt: SqrtFn, n: GNode, ins: seq<real>, hist: seq<real>)
    requires hist != []
    ensures Means(sqrt, n, ins, hist, LocalValue(sqrt, KindOf(n), ins, hist))
    ensures !TakesInputs(n.ntype) ==> Means(sqrt, n, ins, hist, LocalValue(sqrt, KindOf(n), [], hist))
  {
    KindMeans(sqrt, n, ins, hist);
    KindTakesInputs(n);
    hide Means, KindOf;
    assert !TakesInputs(n.ntype) ==> LocalValue(sqrt, KindOf(n), [], hist) == LocalValue(sqrt, KindOf(n), ins, hist);
  }

  lemma {:induction false} FireIsFiring(spec: GraphSpec, val: Valuation, n: GNode)
    ensures Wired(spec, val, n) == InputValue(NetOf(spec), val, n.id)
    ensures Fire(spec, val, n) <==> Firing(NetOf(spec), val, n)
  {
    hide KindOf, ById;
    InputsAreSources(spec.connections, n.id);
    KindTakesInputs(n);
  }

  lemma {:induction false} DecisionIsDecided(spec: GraphSpec, val: Valuation, d: VmDecision)
    requires IsDecision(NetOf(spec), spec.nodes, val, d)
    ensures Decided(spec, val, d)
  {
    hide Fire, Firing, Wired, InputValue, KindOf, NetOf;
    forall j | 0 <= j < |spec.nodes|
      ensures Wired(spec, val, spec.nodes[j]) == InputValue(NetOf(spec), val, spec.nodes[j].id)
      ensures Fire(spec, val, spec.nodes[j]) <==> Firing(NetOf(spec), val, spec.nodes[j])
      ensures KindOf(spec.nodes[j]).Signals? <==> spec.nodes[j].ntype in {"buy_signal", "sell_signal"}
      ensures KindOf(spec.nodes[j]).Signals? ==> (KindOf(spec.nodes[j]).buys <==> spec.nodes[j].ntype == "buy_signal")
    {
      FireIsFiring(spec, val, spec.nodes[j]);
      KindTakesInputs(spec.nodes[j]);
    }
    forall j | 0 <= j < |spec.nodes| && Firing(NetOf(spec), val, spec.nodes[j])
      ensures KindOf(spec.nodes[j]).Signals?
    {
      FiringSignals(NetOf(spec), val, spec.nodes[j]);
    }
  }

  lemma {:induction false} FiringSignals(net: Net, val: Valuation, n: GNode)
    requires Firing(net, val, n)
    ensures KindOf(n).Signals?
  {
  }

  /** Whatever is wired into a signal node is evaluated. */
  ghost predicate SignalsWired(spec: GraphSpec, live: set<string>) {
    forall k :: 0 <= k < |spec.nodes| && spec.nodes[k].ntype in {"buy_signal", "sell_signal"} ==>
      forall x :: x in Sources(spec.connections, spec.nodes[k].id) ==> x in live
  }

  /** The decision is the one the graph makes when every node has its value. */
  ghost predicate Follows(sqrt: SqrtFn, spec: GraphSpec, hist: seq<real>, d: VmDecision)
    requires hist != []
  {
    exists val: Valuation, live: set<string> ::
      Evaluates(sqrt, spec, val, live, hist) && SignalsWired(spec, live) && Decided(spec, val, d)
  }

  lemma {:induction false} RootsAreWired(spec: GraphSpec, live: set<string>)
    requires RootsLive(NetOf(spec), spec.nodes, live)
    ensures SignalsWired(spec, live)
  {
    hide KindOf, ById;
    forall k | 0 <= k < |spec.nodes| && spec.nodes[k].ntype in {"buy_signal", "sell_signal"}
      ensures forall x :: x in Sources(spec.connections, spec.nodes[k].id) ==> x in live
    {
      KindTakesInputs(spec.nodes[k]);
      InputsAreSources(spec.connections, spec.nodes[k].id);
      var ins := NetOf(spec).Ins(spec.nodes[k].id);
      forall x | x in ins ensures x in live {
        var i :| 0 <= i < |ins| && ins[i] == x;
      }
    }
  }

  /** A compiled program that fits the stack decides what its file says. */
  lemma {:induction false} CompiledFollows(spec: GraphSpec, sqrt: SqrtFn, hist: seq<real>)
    requires hist != [] && Compiled(spec).Ok? && AllRun(Compiled(spec).value) && TermsFit(TerminalsOf(spec))
    ensures Follows(sqrt, spec, hist, Exec(sqrt, Compiled(spec).value, RESET, hist).decision)
  {
    hide Respects, RootsLive, IsDecision, TermsFit, Terminals, Program, Exec, Meaning, Sound, AllRun, SlotsFrom, KindOf;
    var val, live := Meaning(sqrt, NetOf(spec), hist), Sound(NetOf(spec));
    MeaningExists(spec, sqrt, hist);
    CompiledMeansGraph(spec, sqrt, val, live, hist);
    RespectsEvaluates(sqrt, spec, val, live, hist);
    RootsAreWired(spec, live);
    DecisionIsDecided(spec, val, Exec(sqrt, Compiled(spec).value, RESET, hist).decision);
    hide Evaluates, SignalsWired, Decided;
    assert Evaluates(sqrt, spec, val, live, hist) && SignalsWired(spec, live);
  }

  // ------------------------------------------------------------ when a file compiles

  const TYPES := {"data_source", "ema", "momentum", "reversion", "condition", "and_gate", "or_gate",
                  "buy_signal", "sell_signal"}

  /** Takes one input at most. */
  predicate TakesOne(ntype: string) {
    ntype in {"condition", "buy_signal", "sell_signal"}
  }

  predicate Declared(spec: GraphSpec, id: string) {
    exists k :: 0 <= k < |spec.nodes| && spec.nodes[k].id == id
  }

  /** The id stands for a node of this type. */
  ghost predicate HasType(spec: GraphSpec, id: string, ntype: string) {
    exists k: nat :: Stands(spec.nodes, k) && spec.nodes[k].id == id && spec.nodes[k].ntype == ntype
  }

  /** x is wired into a node that takes inputs. */
  ghost predicate Feeds(spec: GraphSpec, x: string, id: string) {
    x in Sources(spec.connections, id) && exists t :: HasType(spec, id, t) && TakesInputs(t)
  }

  /** Each step of the walk goes from a node that takes inputs to one of its sources. */
  ghost predicate Follow(spec: GraphSpec, p: seq<string>) {
    forall i :: 0 <= i < |p| - 1 ==> Feeds(spec, p[i + 1], p[i])
  }

  /** The walk repeats no node and ends at one of a known type with no more inputs than it takes. */
  ghost predicate Fine(spec: GraphSpec, p: seq<string>) {
    && p != [] && NoRepeat(p)
    && exists t :: HasType(spec, p[|p| - 1], t) && t in TYPES
                   && (TakesOne(t) ==> |Sources(spec.connections, p[|p| - 1])| <= 1)
  }

  /** A signal node has one input at most, and every walk back from it is fine. */
  ghost predicate SignalReads(spec: GraphSpec, n: GNode) {
    n.ntype in {"buy_signal", "sell_signal"} ==>
      && |Sources(spec.connections, n.id)| <= 1
      && forall p :: p != [] && p[0] in Sources(spec.connections, n.id) && Follow(spec, p) ==> Fine(spec, p)
  }

  /** All connections join declared nodes, and every listed signal node can be read. */
  ghost predicate Reads(spec: GraphSpec) {
    && (forall i :: 0 <= i < |spec.connections| ==>
          Declared(spec, spec.connections[i].0) && Declared(spec, spec.connections[i].1))
    && (forall k :: 0 <= k < |spec.nodes| ==> SignalReads(spec, spec.nodes[k]))
  }

  lemma {:induction false} DeclaredIff(spec: GraphSpec, id: string)
    ensures Declared(spec, id) <==> id in NetOf(spec).byId
  {
    ByIdCovers(spec.nodes);
  }

  lemma {:induction false} TypeIff(spec: GraphSpec, id: string, t: string)
    ensures HasType(spec, id, t) <==> id in NetOf(spec).byId && NetOf(spec).byId[id].ntype == t
  {
    hide ById;
    if id in NetOf(spec).byId {
      var k := NodeStands(spec.nodes, id);
      forall j: nat | Stands(spec.nodes, j) && spec.nodes[j].id == id ensures j == k {
      }
    } else {
      DeclaredIff(spec, id);
    }
  }

  lemma {:induction false} KindKnown(n: GNode)
    ensures !KindOf(n).Unsupported? <==> n.ntype in TYPES
    ensures KindOf(n).IsUnary() <==> TakesOne(n.ntype)
  {
  }

  lemma {:induction false} FeedsIff(spec: GraphSpec, x: string, id: string)
    ensures Feeds(spec, x, id) <==> x in NetOf(spec).Operands(id)
  {
    hide KindOf, ById, TakesInputs, HasType;
    var net := NetOf(spec);
    InputsAreSources(spec.connections, id);
    if id in net.byId {
      TypeIff(spec, id, net.byId[id].ntype);
      KindTakesInputs(net.byId[id]);
    }
    if t :| HasType(spec, id, t) && TakesInputs(t) { TypeIff(spec, id, t); }
  }

  lemma {:induction false} FollowIff(spec: GraphSpec, p: seq<string>)
    ensures Follow(spec, p) <==> IsWalk(NetOf(spec), p)
  {
    hide Feeds, NetOf;
    forall i | 0 <= i < |p| - 1 ensures Feeds(spec, p[i + 1], p[i]) <==> p[i + 1] in NetOf(spec).Operands(p[i]) {
      FeedsIff(spec, p[i + 1], p[i]);
    }
  }

  lemma {:induction false} FineIff(spec: GraphSpec, p: seq<string>)
    ensures Fine(spec, p) <==> GoodWalk(NetOf(spec), p)
  {
    hide KindOf, ById, TakesOne, HasType, NoRepeat;
    if p != [] {
      var net, id := NetOf(spec), p[|p| - 1];
      InputsAreSources(spec.connections, id);
      if id in net.byId {
        TypeIff(spec, id, net.byId[id].ntype);
        KindKnown(net.byId[id]);
      }
      if t :| HasType(spec, id, t) { TypeIff(spec, id, t); }
      forall t | HasType(spec, id, t) ensures id in net.byId && net.byId[id].ntype == t { TypeIff(spec, id, t); }
    }
  }

  ghost predicate WalksFine(spec: GraphSpec, from: seq<string>) {
    forall p :: p != [] && p[0] in from && Follow(spec, p) ==> Fine(spec, p)
  }

  lemma {:induction false} WalksFineIff(spec: GraphSpec, from: seq<string>)
    ensures WalksFine(spec, from) <==> forall x :: x in from ==> AllGood(NetOf(spec), [x])
  {
    hide Follow, Fine, IsWalk, GoodWalk, NetOf;
    var net := NetOf(spec);
    if WalksFine(spec, from) {
      forall x | x in from ensures AllGood(net, [x]) {
        forall q | [x] <= q && IsWalk(net, q) ensures GoodWalk(net, q) {
          assert q[0] == x;
          FollowIff(spec, q);
          FineIff(spec, q);
        }
      }
    }
    if forall x :: x in from ==> AllGood(net, [x]) {
      forall p | p != [] && p[0] in from && Follow(spec, p) ensures Fine(spec, p) {
        FollowIff(spec, p);
        FineIff(spec, p);
        assert AllGood(net, [p[0]]) && [p[0]] <= p;
      }
    }
  }

  lemma {:induction false} SignalReadsIff(spec: GraphSpec, n: GNode)
    ensures SignalReads(spec, n) <==> GoodSignal(NetOf(spec), n)
  {
    hide KindOf, ById, Follow, Fine, AllGood;
    KindTakesInputs(n);
    InputsAreSources(spec.connections, n.id);
    WalksFineIff(spec, Sources(spec.connections, n.id));
  }

  /** A file compiles exactly when it can be read. */
  lemma {:induction false} CompilesIffReads(spec: GraphSpec)
    ensures CanCompile(spec) <==> Reads(spec)
    ensures Compiled(spec).Ok? <==> Reads(spec)
  {
    hide KindOf, ById, GoodSignal, Declared, SignalReads, Compiled;
    CompilesIff(spec);
    forall i | 0 <= i < |spec.connections|
      ensures Declared(spec, spec.connections[i].0) <==> spec.connections[i].0 in NetOf(spec).byId
      ensures Declared(spec, spec.connections[i].1) <==> spec.connections[i].1 in NetOf(spec).byId
    {
      DeclaredIff(spec, spec.connections[i].0);
      DeclaredIff(spec, spec.connections[i].1);
    }
    forall k | 0 <= k < |spec.nodes|
      ensures SignalReads(spec, spec.nodes[k]) <==> GoodSignal(NetOf(spec), spec.nodes[k])
    {
      SignalReadsIff(spec, spec.nodes[k]);
    }
  }

  /** What an error says of the last node of a walk. */
  ghost predicate Accuses(spec: GraphSpec, e: CompileError, q: seq<string>)
    requires q != []
  {
    var id := q[|q| - 1];
    match e
    case Cycle => !NoRepeat(q)
    case UnknownNode(x) => x == id && !Declared(spec, id)
    case UnknownType(t) => HasType(spec, id, t) && t !in TYPES
    case TooManyInputs(x, t, got) =>
      x == id && HasType(spec, id, t) && TakesOne(t) && got == |Sources(spec.connections, id)| && got > 1
  }

  /** The i-th connection is the first with an undeclared end, and x is its first such end. */
  ghost predicate FirstUndeclared(spec: GraphSpec, i: nat, x: string) {
    && i < |spec.connections|
    && (forall j :: 0 <= j < i ==> Declared(spec, spec.connections[j].0) && Declared(spec, spec.connections[j].1))
    && x == (if Declared(spec, spec.connections[i].0) then spec.connections[i].1 else spec.connections[i].0)
    && !Declared(spec, x)
  }

  lemma {:induction false} BlameAccuses(spec: GraphSpec, e: CompileError, q: seq<string>)
    requires Shows(NetOf(spec), e, q)
    ensures q != [] && Follow(spec, q) && Accuses(spec, e, q)
  {
    hide KindOf, ById, TakesOne, HasType, NoRepeat, GoodWalk;
    var net, id := NetOf(spec), q[|q| - 1];
    FollowIff(spec, q);
    DeclaredIff(spec, id);
    InputsAreSources(spec.connections, id);
    if id in net.byId {
      TypeIff(spec, id, net.byId[id].ntype);
      KindKnown(net.byId[id]);
    }
  }

  /** Every refusal is accurate: it names the first undeclared connection end, or a signal node with
      more than one input, or what is wrong where a walk from a signal ends. */
  lemma {:induction false} RefusalIsAccurate(spec: GraphSpec) returns (i: nat, n: GNode, q: seq<string>)
    requires Compiled(spec).Err?
    ensures var e := Compiled(spec).error;
      || (e.UnknownNode? && FirstUndeclared(spec, i, e.id))
      || (&& n in spec.nodes && n.ntype in {"buy_signal", "sell_signal"}
          && (q == [] ==>
                && e.TooManyInputs? && e.node == n.id && HasType(spec, n.id, e.nodeType)
                && e.got == |Sources(spec.connections, n.id)| && e.got > 1)
          && (q != [] ==>
                q[0] in Sources(spec.connections, n.id) && Follow(spec, q) && Accuses(spec, e, q)))
  {
    hide KindOf, ById, Shows, HasType, Accuses, Follow, Declared, Compiled;
    var net := NetOf(spec);
    i, n, q := ErrorIsReal(spec);
    forall id ensures Declared(spec, id) <==> id in net.byId { DeclaredIff(spec, id); }
    if KnownEnds(net, spec.connections) {
      KindTakesInputs(n);
      InputsAreSources(spec.connections, n.id);
      TypeIff(spec, n.id, net.byId[n.id].ntype);
      if q != [] { BlameAccuses(spec, Compiled(spec).error, q); }
    }
  }

  // ------------------------------------------------------------ when a program can be run

  /** A reversion node under this id has a window of at least one. */
  ghost predicate WindowGiven(spec: GraphSpec, id: string) {
    forall k: nat :: Stands(spec.nodes, k) && spec.nodes[k].id == id && spec.nodes[k].ntype == "reversion" ==>
      Property(spec.nodes[k], "window", 64.0) >= 1.0
  }

  ghost predicate WalksWindowed(spec: GraphSpec, from: seq<string>) {
    forall p :: p != [] && p[0] in from && Follow(spec, p) ==> WindowGiven(spec, p[|p| - 1])
  }

  /** No signal depends on a reversion node without a window. */
  ghost predicate Windowed(spec: GraphSpec) {
    forall k :: 0 <= k < |spec.nodes| && spec.nodes[k].ntype in {"buy_signal", "sell_signal"} ==>
      WalksWindowed(spec, Sources(spec.connections, spec.nodes[k].id))
  }

  lemma {:induction false} WindowGivenIff(spec: GraphSpec, id: string)
    ensures WindowGiven(spec, id) <==> HasWindow(NetOf(spec), id)
  {
    hide ById;
    DeclaredIff(spec, id);
    if id in NetOf(spec).byId {
      var k := NodeStands(spec.nodes, id);
      WindowOfKind(spec.nodes[k]);
      hide KindOf;
      assert forall j: nat :: Stands(spec.nodes, j) && spec.nodes[j].id == id ==> j == k;
    } else {
      assert forall k: nat :: Stands(spec.nodes, k) ==> spec.nodes[k].id != id;
    }
  }

  lemma {:induction false} WindowOfKind(n: GNode)
    ensures (KindOf(n).Indicates? ==> KindOf(n).indicator.At(0).Runs())
            <==> (n.ntype == "reversion" ==> Property(n, "window", 64.0) >= 1.0)
  {
  }

  lemma {:induction false} WalksWindowedIff(spec: GraphSpec, from: seq<string>)
    ensures WalksWindowed(spec, from) <==> forall x :: x in from ==> WindowsFrom(NetOf(spec), [x])
  {
    hide Follow, WindowGiven, HasWindow, IsWalk, NetOf;
    var net := NetOf(spec);
    if WalksWindowed(spec, from) {
      forall x | x in from ensures WindowsFrom(net, [x]) {
        forall q | [x] <= q && IsWalk(net, q) && q != [] ensures HasWindow(net, q[|q| - 1]) {
          assert q[0] == x;
          FollowIff(spec, q);
          WindowGivenIff(spec, q[|q| - 1]);
        }
      }
    }
    if forall x :: x in from ==> WindowsFrom(net, [x]) {
      forall p | p != [] && p[0] in from && Follow(spec, p) ensures WindowGiven(spec, p[|p| - 1]) {
        FollowIff(spec, p);
        WindowGivenIff(spec, p[|p| - 1]);
        assert WindowsFrom(net, [p[0]]) && [p[0]] <= p;
      }
    }
  }

  lemma {:induction false} SignalWindowedIff(spec: GraphSpec, n: GNode)
    ensures SignalRuns(NetOf(spec), n)
            <==> (n.ntype in {"buy_signal", "sell_signal"} ==> WalksWindowed(spec, Sources(spec.connections, n.id)))
  {
    hide KindOf, ById, WindowsFrom, WalksWindowed;
    var ins := NetOf(spec).Ins(n.id);
    KindTakesInputs(n);
    InputsAreSources(spec.connections, n.id);
    WalksWindowedIff(spec, ins);
    assert (forall x :: x in ins ==> WindowsFrom(NetOf(spec), [x]))
      <==> (forall i :: 0 <= i < |ins| ==> WindowsFrom(NetOf(spec), [ins[i]]));
  }

  lemma {:induction false} WindowedIff(spec: GraphSpec)
    ensures Windowed(spec) <==> WindowsOk(spec)
  {
    hide KindOf, ById, SignalRuns, WalksWindowed;
    forall k | 0 <= k < |spec.nodes|
      ensures SignalRuns(NetOf(spec), spec.nodes[k])
              <==> (spec.nodes[k].ntype in {"buy_signal", "sell_signal"} ==>
                      WalksWindowed(spec, Sources(spec.connections, spec.nodes[k].id)))
    {
      SignalWindowedIff(spec, spec.nodes[k]);
    }
  }
}
