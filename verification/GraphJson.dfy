/** Graph files: which graph a JSON text stands for, and that printing a graph and reading it
    back gives the same graph. */
module GraphJson {
  import opened Bytes
  import opened JsonReader
  import opened JsonStrings
  import opened JsonText
  import opened Options
  import opened Sequences
  import Graph

  // ------------------------------------------------------------ the graph of a JSON value

  function Get(j: Json, key: string): Option<Json> {
    if j.Obj? && key in j.fields then Some(j.fields[key]) else None
  }

  /** A missing or different kind of field reads as the empty string, array or object. */
  function StrAt(j: Json, key: string): string {
    match Get(j, key)
    case Some(Str(s)) => s
    case _ => ""
  }

  function ItemsAt(j: Json, key: string): seq<Json> {
    match Get(j, key)
    case Some(Arr(items)) => items
    case _ => []
  }

  function FieldsAt(j: Json, key: string): map<string, Json> {
    match Get(j, key)
    case Some(Obj(fields)) => fields
    case _ => map[]
  }

  function NumsOf(props: map<string, Json>): map<string, real> {
    map k | k in props && props[k].Num? :: props[k].n
  }

  function StrsOf(props: map<string, Json>): map<string, string> {
    map k | k in props && props[k].Str? :: props[k].s
  }

  function NodeOf(j: Json): Graph.GNode {
    var props := FieldsAt(j, "properties");
    Graph.GNode(StrAt(j, "id"), StrAt(j, "type"), NumsOf(props), StrsOf(props))
  }

  function NodesOf(items: seq<Json>): seq<Graph.GNode> {
    if items == [] then [] else NodesOf(items[..|items| - 1]) + [NodeOf(items[|items| - 1])]
  }

  /** Connections with an empty end are left out. */
  function ConnectionsOf(items: seq<Json>): seq<(string, string)> {
    if items == [] then []
    else
      var c := items[|items| - 1];
      var (from, to) := (StrAt(c, "from"), StrAt(c, "to"));
      ConnectionsOf(items[..|items| - 1]) + (if from != "" && to != "" then [(from, to)] else [])
  }

  function SpecOf(j: Json): Result<Graph.GraphSpec> {
    match Get(j, "canvas")
    case Some(canvas) =>
      Ok(Graph.GraphSpec(NodesOf(ItemsAt(canvas, "nodes")), ConnectionsOf(ItemsAt(canvas, "connections"))))
    case None => Err(MissingCanvas)
  }

  /** What a text is read as; anything after the first value is ignored. */
  function SpecOfText(num: NumReader, text: seq<Byte>): Result<Graph.GraphSpec> {
    match ReadValue(num, text, 0)
    case Got(v, _) => SpecOf(v)
    case Bad(e) => Err(e)
  }

  // ------------------------------------------------------------ the graph, field by field

  /** The object has this value under this key. */
  predicate Holds(j: Json, key: string, v: Json) {
    j.Obj? && key in j.fields && j.fields[key] == v
  }

  /** The string under a key; anything else there, or nothing, reads as the empty string. */
  ghost predicate HoldsText(j: Json, key: string, s: string) {
    Holds(j, key, Str(s)) || (s == "" && forall t :: !Holds(j, key, Str(t)))
  }

  ghost predicate HoldsItems(j: Json, key: string, items: seq<Json>) {
    Holds(j, key, Arr(items)) || (items == [] && forall t :: !Holds(j, key, Arr(t)))
  }

  ghost predicate HoldsFields(j: Json, key: string, fields: map<string, Json>) {
    Holds(j, key, Obj(fields)) || (fields == map[] && forall t :: !Holds(j, key, Obj(t)))
  }

  predicate NumbersAmong(props: map<string, Json>, nums: map<string, real>) {
    && (forall k :: k in nums ==> k in props && props[k] == Num(nums[k]))
    && (forall k :: k in props && props[k].Num? ==> k in nums)
  }

  predicate StringsAmong(props: map<string, Json>, strs: map<string, string>) {
    && (forall k :: k in strs ==> k in props && props[k] == Str(strs[k]))
    && (forall k :: k in props && props[k].Str? ==> k in strs)
  }

  /** A node's id and type come from its own fields; its numbers and strings are those among its
      properties, and anything else there is left out. */
  ghost predicate IsNode(j: Json, n: Graph.GNode) {
    && HoldsText(j, "id", n.id) && HoldsText(j, "type", n.ntype)
    && exists props :: HoldsFields(j, "properties", props)
         && NumbersAmong(props, n.nums) && StringsAmong(props, n.strs)
  }

  ghost predicate AreNodes(items: seq<Json>, nodes: seq<Graph.GNode>) {
    |nodes| == |items| && forall k :: 0 <= k < |items| ==> IsNode(items[k], nodes[k])
  }

  /** The connections listed, in order, without those that lack an end. */
  ghost predicate AreConnections(items: seq<Json>, cs: seq<(string, string)>) {
    if items == [] then cs == []
    else
      exists from, to :: HoldsText(items[0], "from", from) && HoldsText(items[0], "to", to)
        && if from == "" || to == "" then AreConnections(items[1..], cs)
           else cs != [] && cs[0] == (from, to) && AreConnections(items[1..], cs[1..])
  }

  lemma {:induction false} AtHolds(j: Json, key: string)
    ensures HoldsText(j, key, StrAt(j, key))
    ensures HoldsItems(j, key, ItemsAt(j, key))
    ensures HoldsFields(j, key, FieldsAt(j, key))
  {
  }

  lemma {:induction false} PropertiesSplit(props: map<string, Json>)
    ensures NumbersAmong(props, NumsOf(props)) && StringsAmong(props, StrsOf(props))
  {
  }

  lemma {:induction false} NodeOfIsNode(j: Json)
    ensures IsNode(j, NodeOf(j))
  {
    var props := FieldsAt(j, "properties");
    AtHolds(j, "id");
    AtHolds(j, "type");
    AtHolds(j, "properties");
    PropertiesSplit(props);
    hide HoldsText, HoldsFields, NumbersAmong, StringsAmong, NumsOf, StrsOf, StrAt, FieldsAt;
    assert HoldsFields(j, "properties", props);
  }

  lemma {:induction false} NodesOfAreNodes(items: seq<Json>)
    ensures AreNodes(items, NodesOf(items))
  {
    hide IsNode, NodeOf;
    if items != [] {
      var init := items[..|items| - 1];
      NodesOfAreNodes(init);
      NodeOfIsNode(items[|items| - 1]);
      assert forall k :: 0 <= k < |init| ==> items[k] == init[k];
    }
  }

  lemma {:induction false} OneConnection(item: Json)
    ensures ConnectionsOf([item]) ==
              if StrAt(item, "from") != "" && StrAt(item, "to") != ""
              then [(StrAt(item, "from"), StrAt(item, "to"))] else []
  {
    hide StrAt;
    assert [item][..0] == [];
  }

  lemma {:induction false} ConnectionsFront(items: seq<Json>)
    requires items != []
    ensures var from, to := StrAt(items[0], "from"), StrAt(items[0], "to");
      ConnectionsOf(items)
      == (if from != "" && to != "" then [(from, to)] else []) + ConnectionsOf(items[1..])
  {
    hide StrAt, ConnectionsOf;
    ConnectionsCons(items);
    OneConnection(items[0]);
  }

  lemma {:induction false} ConnectionsOfAreConnections(items: seq<Json>)
    ensures AreConnections(items, ConnectionsOf(items))
  {
    hide StrAt, HoldsText, ConnectionsOf;
    if items == [] {
      NoConnections();
    } else {
      var from, to := StrAt(items[0], "from"), StrAt(items[0], "to");
      AtHolds(items[0], "from");
      AtHolds(items[0], "to");
      ConnectionsFront(items);
      ConnectionsOfAreConnections(items[1..]);
      var rest := ConnectionsOf(items[1..]);
      assert ([(from, to)] + rest)[1..] == rest && [] + rest == rest;
      assert HoldsText(items[0], "from", from) && HoldsText(items[0], "to", to);
    }
  }

  /** The graph a JSON value stands for, in the value's own fields: without a canvas there is none. */
  lemma {:induction false} SpecSays(j: Json)
    ensures (forall canvas :: !Holds(j, "canvas", canvas)) ==> SpecOf(j) == Err(MissingCanvas)
    ensures forall canvas :: Holds(j, "canvas", canvas) ==>
              SpecOf(j).Ok? && IsCanvas(canvas, SpecOf(j).value)
  {
    hide IsCanvas, NodesOf, ConnectionsOf;
    if j.Obj? && "canvas" in j.fields {
      CanvasSays(j.fields["canvas"]);
      assert Holds(j, "canvas", j.fields["canvas"]);
    }
  }

  ghost predicate IsCanvas(canvas: Json, spec: Graph.GraphSpec) {
    exists nodes, connections :: HoldsItems(canvas, "nodes", nodes) && HoldsItems(canvas, "connections", connections)
      && AreNodes(nodes, spec.nodes) && AreConnections(connections, spec.connections)
  }

  lemma {:induction false} CanvasSays(canvas: Json)
    ensures IsCanvas(canvas, Graph.GraphSpec(NodesOf(ItemsAt(canvas, "nodes")),
                                             ConnectionsOf(ItemsAt(canvas, "connections"))))
  {
    hide HoldsItems, AreNodes, AreConnections, ItemsAt;
    AtHolds(canvas, "nodes");
    AtHolds(canvas, "connections");
    var nodes, connections := ItemsAt(canvas, "nodes"), ItemsAt(canvas, "connections");
    NodesOfAreNodes(nodes);
    ConnectionsOfAreConnections(connections);
    assert HoldsItems(canvas, "nodes", nodes) && HoldsItems(canvas, "connections", connections);
  }

  // ------------------------------------------------------------ the reader of graph files

  method SplitProperties(props: map<string, Json>) returns (nums: map<string, real>, strs: map<string, string>)
    ensures nums == NumsOf(props) && strs == StrsOf(props)
  {
    nums, strs := map[], map[];
    var left := props.Items;
    while left != {}
      invariant left <= props.Items
      invariant forall k :: k in nums <==> k in props && props[k].Num? && (k, props[k]) !in left
      invariant forall k :: k in nums ==> nums[k] == props[k].n
      invariant forall k :: k in strs <==> k in props && props[k].Str? && (k, props[k]) !in left
      invariant forall k :: k in strs ==> strs[k] == props[k].s
      decreases |left|
    {
      var item :| item in left;
      var (k, val) := item;
      if val.Num? {
        nums := nums[k := val.n];
      } else if val.Str? {
        strs := strs[k := val.s];
      }
      left := left - {item};
    }
  }

  method ReadNodes(items: seq<Json>) returns (nodes: seq<Graph.GNode>)
    ensures nodes == NodesOf(items)
  {
    nodes := [];
    for i := 0 to |items|
      invariant nodes == NodesOf(items[..i])
    {
      hide NumsOf, StrsOf, StrAt, FieldsAt;
      var n := items[i];
      var nums, strs := SplitProperties(FieldsAt(n, "properties"));
      nodes := nodes + [Graph.GNode(StrAt(n, "id"), StrAt(n, "type"), nums, strs)];
      assert items[..i + 1][..i] == items[..i];
    }
    assert items[..|items|] == items;
  }

  method ReadConnections(items: seq<Json>) returns (connections: seq<(string, string)>)
    ensures connections == ConnectionsOf(items)
  {
    connections := [];
    for i := 0 to |items|
      invariant connections == ConnectionsOf(items[..i])
    {
      hide StrAt;
      var from, to := StrAt(items[i], "from"), StrAt(items[i], "to");
      if from != "" && to != "" {
        connections := connections + [(from, to)];
      }
      assert items[..i + 1][..i] == items[..i];
    }
    assert items[..|items|] == items;
  }

  method Parse(text: seq<Byte>, num: NumReader) returns (r: Result<Graph.GraphSpec>)
    ensures r == SpecOfText(num, text)
    ensures match ReadValue(num, text, 0)
      case Bad(e) => r == Err(e)
      case Got(j, _) =>
        && ((forall canvas :: !Holds(j, "canvas", canvas)) ==> r == Err(MissingCanvas))
        && forall canvas :: Holds(j, "canvas", canvas) ==> r.Ok? && IsCanvas(canvas, r.value)
  {
    hide ReadValue, NodesOf, ConnectionsOf, IsCanvas;
    if ReadValue(num, text, 0).Got? { SpecSays(ReadValue(num, text, 0).value); }
    var cursor := new Cursor(text, num);
    var v := cursor.ParseValue();
    if v.Err? {
      return Err(v.error);
    }
    var canvas := Get(v.value, "canvas");
    if canvas.None? {
      return Err(MissingCanvas);
    }
    var nodes := ReadNodes(ItemsAt(canvas.value, "nodes"));
    var connections := ReadConnections(ItemsAt(canvas.value, "connections"));
    r := Ok(Graph.GraphSpec(nodes, connections));
  }

  // ------------------------------------------------------------ the JSON value of a graph

  function NumFields(nums: map<string, real>): map<string, Json> {
    map k | k in nums :: Num(nums[k])
  }

  function StrFields(strs: map<string, string>): map<string, Json> {
    map k | k in strs :: Str(strs[k])
  }

  function NodeJson(n: Graph.GNode): Json {
    Obj(map["id" := Str(n.id), "type" := Str(n.ntype), "properties" := Obj(NumFields(n.nums) + StrFields(n.strs))])
  }

  function ConnectionJson(c: (string, string)): Json {
    Obj(map["from" := Str(c.0), "to" := Str(c.1)])
  }

  function NodeJsons(nodes: seq<Graph.GNode>): seq<Json> {
    if nodes == [] then [] else [NodeJson(nodes[0])] + NodeJsons(nodes[1..])
  }

  function ConnectionJsons(cs: seq<(string, string)>): seq<Json> {
    if cs == [] then [] else [ConnectionJson(cs[0])] + ConnectionJsons(cs[1..])
  }

  function JsonOf(spec: Graph.GraphSpec): Json {
    Obj(map["canvas" := Obj(map["nodes" := Arr(NodeJsons(spec.nodes)),
                                "connections" := Arr(ConnectionJsons(spec.connections))])])
  }

  /** No property is both a number and a string. */
  predicate PlainProperties(n: Graph.GNode) {
    n.nums.Keys !! n.strs.Keys
  }

  predicate Joins(c: (string, string)) {
    c.0 != "" && c.1 != ""
  }

  /** A graph that can be written down: distinct property keys, no empty connection end. */
  predicate Writable(spec: Graph.GraphSpec) {
    && (forall i :: 0 <= i < |spec.nodes| ==> PlainProperties(spec.nodes[i]))
    && (forall i :: 0 <= i < |spec.connections| ==> Joins(spec.connections[i]))
  }

  lemma {:induction false} NodeBackIff(n: Graph.GNode)
    ensures NodeOf(NodeJson(n)) == n <==> PlainProperties(n)
  {
    var props := NumFields(n.nums) + StrFields(n.strs);
    assert FieldsAt(NodeJson(n), "properties") == props;
    assert StrsOf(props) == n.strs;
    if PlainProperties(n) {
      assert NumsOf(props) == n.nums;
    } else {
      var k :| k in n.nums.Keys && k in n.strs.Keys;
      assert k !in NumsOf(props);
    }
  }

  lemma {:induction false} NodesCons(items: seq<Json>)
    requires items != []
    ensures NodesOf(items) == [NodeOf(items[0])] + NodesOf(items[1..])
  {
    hide NodeOf;
    if |items| > 1 {
      NodesCons(items[..|items| - 1]);
      assert items[..|items| - 1][1..] == items[1..][..|items| - 2];
    }
  }

  lemma {:induction false} NodesBackIff(nodes: seq<Graph.GNode>)
    ensures |NodesOf(NodeJsons(nodes))| == |nodes|
    ensures NodesOf(NodeJsons(nodes)) == nodes <==> forall i :: 0 <= i < |nodes| ==> PlainProperties(nodes[i])
  {
    hide NodeOf, NodeJson, PlainProperties;
    if nodes != [] {
      var items := NodeJsons(nodes);
      NodesCons(items);
      assert items[1..] == NodeJsons(nodes[1..]);
      NodesBackIff(nodes[1..]);
      NodeBackIff(nodes[0]);
      assert nodes == [nodes[0]] + nodes[1..];
    }
  }

  lemma {:induction false} ConnectionsSnoc(items: seq<Json>, item: Json)
    ensures ConnectionsOf(items + [item]) == ConnectionsOf(items) + ConnectionsOf([item])
    ensures |ConnectionsOf([item])| <= 1
  {
    hide StrAt;
    assert (items + [item])[..|items|] == items;
    assert [item][..0] == [];
  }

  lemma {:induction false} ConnectionsCons(items: seq<Json>)
    requires items != []
    ensures ConnectionsOf(items) == ConnectionsOf([items[0]]) + ConnectionsOf(items[1..])
    ensures |ConnectionsOf(items)| <= |items|
  {
    hide ConnectionsOf;
    if |items| == 1 {
      NoConnections();
      ConnectionsSnoc([], items[0]);
      assert items == [items[0]] == [] + [items[0]] && items[1..] == [];
    } else {
      var init, last := items[..|items| - 1], items[|items| - 1];
      ConnectionsCons(init);
      ConnectionsSnoc(init, last);
      ConnectionsSnoc(init[1..], last);
      assert items == init + [last] && items[1..] == init[1..] + [last];
      Assoc(ConnectionsOf([init[0]]), ConnectionsOf(init[1..]), ConnectionsOf([last]));
    }
  }

  lemma {:induction false} ConnectionBack(c: (string, string))
    ensures ConnectionsOf([ConnectionJson(c)]) == if Joins(c) then [c] else []
  {
    var items := [ConnectionJson(c)];
    assert items[..0] == [];
    assert StrAt(items[0], "from") == c.0 && StrAt(items[0], "to") == c.1;
  }

  /** The connections written down are those with two ends. */
  function Joined(cs: seq<(string, string)>): (js: seq<(string, string)>)
    ensures |js| <= |cs| && (js == cs <==> forall i :: 0 <= i < |cs| ==> Joins(cs[i]))
  {
    if cs == [] then []
    else
      var rest := Joined(cs[1..]);
      assert cs == [cs[0]] + cs[1..];
      (if Joins(cs[0]) then [cs[0]] else []) + rest
  }

  lemma {:induction false} ConnectionsBack(cs: seq<(string, string)>)
    ensures ConnectionsOf(ConnectionJsons(cs)) == Joined(cs)
  {
    if cs != [] {
      hide ConnectionJson, Joins, ConnectionsOf;
      var items := ConnectionJsons(cs);
      ConnectionsCons(items);
      assert items[0] == ConnectionJson(cs[0]) && items[1..] == ConnectionJsons(cs[1..]);
      ConnectionBack(cs[0]);
      ConnectionsBack(cs[1..]);
    }
  }

  /** A graph comes back from its JSON value exactly when it can be written down. */
  lemma {:induction false} SpecBackIff(spec: Graph.GraphSpec)
    ensures SpecOf(JsonOf(spec)) == Ok(spec) <==> Writable(spec)
  {
    hide NodesOf, ConnectionsOf, NodeJsons, ConnectionJsons, PlainProperties, Joins;
    NodesBackIff(spec.nodes);
    ConnectionsBack(spec.connections);
    var nodes, connections := NodeJsons(spec.nodes), ConnectionJsons(spec.connections);
    var canvas := Obj(map["nodes" := Arr(nodes), "connections" := Arr(connections)]);
    assert Get(JsonOf(spec), "canvas") == Some(canvas);
    assert ItemsAt(canvas, "nodes") == nodes && ItemsAt(canvas, "connections") == connections;
  }

  // ------------------------------------------------------------ round trip through text

  /** What a written text is read as is what its value stands for, whatever white space comes
      before it and whatever comes after. */
  lemma {:induction false} ReadBack(num: NumReader, d: Doc, before: Space, tail: seq<Byte>)
    requires Readable(num, d) && Value(num, d).Obj? && AllSpace(before)
    ensures SpecOfText(num, before + Text(d) + tail) == SpecOf(Value(num, d))
  {
    hide ReadValue, Text, SpecOf, SkipSpace, Readable;
    var b := before + Text(d) + tail;
    assert !d.DNum?;
    assert At(b, 0, before) && At(b, |before|, Text(d));
    SpaceRead(b, 0, before);
    ValueRead(num, d, b, |before|);
    ValueSkip(num, b, 0, |before|);
  }

  /** Reading undoes printing: every text that stands for the graph's value, laid out with any
      white space and followed by anything, is read back as the graph. */
  lemma {:induction false} ReadBackIff(num: NumReader, spec: Graph.GraphSpec, d: Doc, before: Space, tail: seq<Byte>)
    requires Readable(num, d) && Value(num, d) == JsonOf(spec) && AllSpace(before)
    ensures SpecOfText(num, before + Text(d) + tail) == Ok(spec) <==> Writable(spec)
  {
    hide SpecOfText, Text, SpecOf, Writable, Readable, Value;
    ReadBack(num, d, before, tail);
    SpecBackIff(spec);
  }

  /** How numbers are printed. */
  type NumWriter = real -> seq<Byte>

  /** A property's number survives printing and reading. */
  ghost predicate Prints(num: NumReader, show: NumWriter, x: real) {
    IsToken(num, show(x)) && num(show(x)) == Some(x)
  }

  function Field(key: string, value: Doc, rest: Members): Members {
    Member(Quoted(key), [], [], value, [], if rest.Member? then Comma([]) else NoComma, rest)
  }

  function StrDoc(s: string): Doc {
    DStr(Quoted(s))
  }

  ghost function PrintNums(show: NumWriter, nums: map<string, real>, rest: Members): Members
    decreases |nums|
  {
    if nums.Items == {} then rest
    else
      var item :| item in nums.Items;
      Field(item.0, DNum(show(item.1)), PrintNums(show, nums - {item.0}, rest))
  }

  ghost function PrintStrs(strs: map<string, string>): Members
    decreases |strs|
  {
    if strs.Items == {} then NoMembers
    else
      var item :| item in strs.Items;
      Field(item.0, StrDoc(item.1), PrintStrs(strs - {item.0}))
  }

  ghost function PrintProperties(show: NumWriter, n: Graph.GNode): Members {
    PrintNums(show, n.nums, PrintStrs(n.strs))
  }

  ghost function PrintNode(show: NumWriter, n: Graph.GNode): Doc {
    DObj([], Field("id", StrDoc(n.id), Field("type", StrDoc(n.ntype),
      Field("properties", DObj([], PrintProperties(show, n)), NoMembers))))
  }

  ghost function PrintNodes(show: NumWriter, nodes: seq<Graph.GNode>): Elems {
    if nodes == [] then NoElems
    else Elem(PrintNode(show, nodes[0]), [], if |nodes| > 1 then Comma([]) else NoComma, PrintNodes(show, nodes[1..]))
  }

  function PrintConnection(c: (string, string)): Doc {
    DObj([], Field("from", StrDoc(c.0), Field("to", StrDoc(c.1), NoMembers)))
  }

  function PrintConnections(cs: seq<(string, string)>): Elems {
    if cs == [] then NoElems
    else Elem(PrintConnection(cs[0]), [], if |cs| > 1 then Comma([]) else NoComma, PrintConnections(cs[1..]))
  }

  /** A graph's text, without white space, properties in some order. */
  ghost function Print(show: NumWriter, spec: Graph.GraphSpec): Doc {
    DObj([], Field("canvas",
      DObj([], Field("nodes", DArr([], PrintNodes(show, spec.nodes)),
        Field("connections", DArr([], PrintConnections(spec.connections)), NoMembers))), NoMembers))
  }

  /** Every number of a node has a token. */
  ghost predicate NumbersPrint(num: NumReader, show: NumWriter, n: Graph.GNode) {
    forall k :: k in n.nums ==> Prints(num, show, n.nums[k])
  }

  ghost predicate Printable(num: NumReader, show: NumWriter, spec: Graph.GraphSpec) {
    forall i :: 0 <= i < |spec.nodes| ==> NumbersPrint(num, show, spec.nodes[i])
  }

  ghost predicate KeysAscii(n: Graph.GNode) {
    (forall k :: k in n.nums ==> IsAscii(k)) && (forall k :: k in n.strs ==> IsAscii(k))
  }

  ghost predicate NodeAscii(n: Graph.GNode) {
    && IsAscii(n.id) && IsAscii(n.ntype) && KeysAscii(n)
    && forall k :: k in n.strs ==> IsAscii(n.strs[k])
  }

  /** Every string is made of one-byte characters. */
  ghost predicate AllAscii(spec: Graph.GraphSpec) {
    && (forall i :: 0 <= i < |spec.nodes| ==> NodeAscii(spec.nodes[i]))
    && (forall i :: 0 <= i < |spec.connections| ==> IsAscii(spec.connections[i].0) && IsAscii(spec.connections[i].1))
  }

  // ------------------------------------------------------------ the value of a printed graph

  /** String fields as they are heard, under keys that come through. */
  function HeardFields(strs: map<string, string>): map<string, Json> {
    map k | k in strs :: Str(HeardText(strs[k]))
  }

  lemma {:induction false} HeardFieldsStep(strs: map<string, string>, key: string)
    requires key in strs
    ensures map[key := Str(HeardText(strs[key]))] + HeardFields(strs - {key}) == HeardFields(strs)
  {
    hide HeardText;
  }

  lemma {:induction false} NumFieldsStep(nums: map<string, real>, key: string, rest: map<string, Json>)
    requires key in nums
    ensures map[key := Num(nums[key])] + (NumFields(nums - {key}) + rest) == NumFields(nums) + rest
  {
  }

  lemma {:induction false} PrintStrsStep(strs: map<string, string>)
    requires strs != map[]
    ensures var ms := PrintStrs(strs);
      exists key :: key in strs && ms == Field(key, StrDoc(strs[key]), PrintStrs(strs - {key}))
  {
    hide StrDoc, Field;
    assert strs.Items != {} by {
      var k :| k in strs.Keys;
      assert (k, strs[k]) in strs.Items;
    }
  }

  lemma {:induction false} PrintNumsStep(show: NumWriter, nums: map<string, real>, rest: Members)
    requires nums != map[]
    ensures var ms := PrintNums(show, nums, rest);
      exists key :: key in nums && ms == Field(key, DNum(show(nums[key])), PrintNums(show, nums - {key}, rest))
  {
    hide Field;
    assert nums.Items != {} by {
      var k :| k in nums.Keys;
      assert (k, nums[k]) in nums.Items;
    }
  }

  lemma {:induction false} StrDocHeard(num: NumReader, s: string)
    ensures Readable(num, StrDoc(s)) && Value(num, StrDoc(s)) == Str(HeardText(s))
  {
    hide ArePieces;
    QuotedMeans(s);
  }

  lemma {:induction false} NumDoc(num: NumReader, show: NumWriter, x: real)
    requires Prints(num, show, x)
    ensures Readable(num, DNum(show(x))) && Value(num, DNum(show(x))) == Num(x)
  {
  }

  lemma {:induction false} FieldHeard(num: NumReader, key: string, value: Doc, rest: Members)
    requires Readable(num, value) && MembersReadable(num, rest)
    ensures MembersReadable(num, Field(key, value, rest))
    ensures MemberValues(num, Field(key, value, rest))
            == map[HeardText(key) := Value(num, value)] + MemberValues(num, rest)
  {
    hide Readable, Value, ArePieces, Heard, Quoted;
    QuotedMeans(key);
  }

  lemma {:induction false} FieldPrinted(num: NumReader, key: string, value: Doc, rest: Members)
    requires IsAscii(key) && Readable(num, value) && MembersReadable(num, rest)
    ensures MembersReadable(num, Field(key, value, rest))
    ensures MemberValues(num, Field(key, value, rest)) == map[key := Value(num, value)] + MemberValues(num, rest)
  {
    hide Readable, Value, MembersReadable, MemberValues, Field, HeardText, IsAscii;
    FieldHeard(num, key, value, rest);
    HeardTextIff(key);
  }

  /** Printed string fields: each key is there as it is heard, and every value is a string. */
  ghost predicate HoldsStrs(m: map<string, Json>, strs: map<string, string>) {
    && (forall k :: k in strs ==> HeardText(k) in m)
    && (forall k :: k in m ==> m[k].Str?)
    && ((forall k :: k in strs ==> IsAscii(k)) ==> m == HeardFields(strs))
  }

  lemma {:induction false} HoldsStrsStep(m: map<string, Json>, strs: map<string, string>, key: string)
    requires key in strs && HoldsStrs(m, strs - {key})
    ensures HoldsStrs(map[HeardText(key) := Str(HeardText(strs[key]))] + m, strs)
  {
    hide HeardText, IsAscii, HeardFields;
    HeardTextOfAscii(key);
    HeardFieldsStep(strs, key);
  }

  lemma {:induction false} NoStrsHeard(num: NumReader)
    ensures MembersReadable(num, PrintStrs(map[])) && HoldsStrs(MemberValues(num, PrintStrs(map[])), map[])
  {
    assert HeardFields(map[]) == map[];
  }

  lemma {:induction false} StrsHeard(num: NumReader, strs: map<string, string>)
    ensures MembersReadable(num, PrintStrs(strs)) && HoldsStrs(MemberValues(num, PrintStrs(strs)), strs)
    decreases |strs|
  {
    hide *;
    if strs == map[] {
      NoStrsHeard(num);
    } else {
      PrintStrsStep(strs);
      var key :| key in strs && PrintStrs(strs) == Field(key, StrDoc(strs[key]), PrintStrs(strs - {key}));
      StrsHeard(num, strs - {key});
      StrDocHeard(num, strs[key]);
      FieldHeard(num, key, StrDoc(strs[key]), PrintStrs(strs - {key}));
      HoldsStrsStep(MemberValues(num, PrintStrs(strs - {key})), strs, key);
    }
  }

  lemma {:induction false} HeardTextOfAscii(s: string)
    ensures IsAscii(s) <==> HeardText(s) == s
  {
    hide HeardText, IsAscii;
    HeardTextIff(s);
  }

  /** Printed number fields m in front of others r: the same. */
  ghost predicate HoldsNums(m: map<string, Json>, nums: map<string, real>, r: map<string, Json>) {
    && (forall k :: k in nums ==> HeardText(k) in m)
    && (forall k :: k in r ==> k in m)
    && (forall k :: k in m ==> m[k].Num? || (k in r && m[k] == r[k]))
    && ((forall k :: k in nums ==> IsAscii(k)) ==> m == NumFields(nums) + r)
  }

  lemma {:induction false} HoldsNumsStep(m: map<string, Json>, nums: map<string, real>, key: string, r: map<string,
                                         Json>)
    requires key in nums && HoldsNums(m, nums - {key}, r)
    ensures HoldsNums(map[HeardText(key) := Num(nums[key])] + m, nums, r)
  {
    hide HeardText, IsAscii, NumFields;
    HeardTextOfAscii(key);
    NumFieldsStep(nums, key, r);
  }

  lemma {:induction false} NoNumsHeard(num: NumReader, show: NumWriter, rest: Members)
    requires MembersReadable(num, rest)
    ensures PrintNums(show, map[], rest) == rest
    ensures HoldsNums(MemberValues(num, rest), map[], MemberValues(num, rest))
  {
    hide MemberValues;
    assert NumFields(map[]) + MemberValues(num, rest) == MemberValues(num, rest);
  }

  lemma {:induction false} NumsHeard(num: NumReader, show: NumWriter, nums: map<string, real>, rest: Members)
    requires forall k :: k in nums ==> Prints(num, show, nums[k])
    requires MembersReadable(num, rest)
    ensures var ms := PrintNums(show, nums, rest);
      MembersReadable(num, ms) && HoldsNums(MemberValues(num, ms), nums, MemberValues(num, rest))
    decreases |nums|
  {
    hide *;
    if nums == map[] {
      NoNumsHeard(num, show, rest);
    } else {
      PrintNumsStep(show, nums, rest);
      var key :| key in nums
        && PrintNums(show, nums, rest) == Field(key, DNum(show(nums[key])), PrintNums(show, nums - {key}, rest));
      var less := PrintNums(show, nums - {key}, rest);
      NumsHeard(num, show, nums - {key}, rest);
      NumDoc(num, show, nums[key]);
      FieldHeard(num, key, DNum(show(nums[key])), less);
      HoldsNumsStep(MemberValues(num, less), nums, key, MemberValues(num, rest));
    }
  }

  lemma {:induction false} ObjHeard(num: NumReader, ms: Members)
    requires MembersReadable(num, ms)
    ensures Readable(num, DObj([], ms)) && Value(num, DObj([], ms)) == Obj(MemberValues(num, ms))
  {
    hide MembersReadable, MemberValues;
  }

  lemma {:induction false} ArrHeard(num: NumReader, es: Elems)
    requires ElemsReadable(num, es)
    ensures Readable(num, DArr([], es)) && Value(num, DArr([], es)) == Arr(ElemValues(num, es))
  {
    hide ElemsReadable, ElemValues;
  }

  lemma {:induction false} OneField(num: NumReader, key: string, value: Doc)
    requires IsAscii(key) && Readable(num, value)
    ensures var d := DObj([], Field(key, value, NoMembers));
      Readable(num, d) && Value(num, d) == Obj(map[key := Value(num, value)])
  {
    hide IsAscii, Field;
    FieldPrinted(num, key, value, NoMembers);
    assert map[key := Value(num, value)] + map[] == map[key := Value(num, value)];
  }

  lemma {:induction false} TwoFields(num: NumReader, key: string, value: Doc, key': string, value': Doc)
    requires IsAscii(key) && Readable(num, value) && IsAscii(key') && Readable(num, value')
    ensures var d := DObj([], Field(key, value, Field(key', value', NoMembers)));
      Readable(num, d) && Value(num, d) == Obj(map[key := Value(num, value), key' := Value(num, value')])
  {
    hide IsAscii, Field;
    var last := Field(key', value', NoMembers);
    FieldPrinted(num, key', value', NoMembers);
    FieldPrinted(num, key, value, last);
    var v, w := Value(num, value), Value(num, value');
    assert map[key := v] + (map[key' := w] + map[]) == map[key := v, key' := w];
  }

  lemma {:induction false} ThreeFields(num: NumReader, key: string, value: Doc, key': string, value': Doc,
                                      key'': string, value'': Doc)
    requires IsAscii(key) && Readable(num, value) && IsAscii(key') && Readable(num, value')
    requires IsAscii(key'') && Readable(num, value'')
    ensures var d := DObj([], Field(key, value, Field(key', value', Field(key'', value'', NoMembers))));
      && Readable(num, d)
      && Value(num, d) == Obj(map[key := Value(num, value), key' := Value(num, value'), key'' := Value(num, value'')])
  {
    hide IsAscii, Field;
    var last := Field(key'', value'', NoMembers);
    FieldPrinted(num, key'', value'', NoMembers);
    FieldPrinted(num, key', value', last);
    FieldPrinted(num, key, value, Field(key', value', last));
    ThreeKeys(key, Value(num, value), key', Value(num, value'), key'', Value(num, value''));
  }

  lemma {:induction false} ThreeKeys(k: string, u: Json, k': string, v: Json, k'': string, w: Json)
    ensures map[k := u] + (map[k' := v] + (map[k'' := w] + map[])) == map[k := u, k' := v, k'' := w]
  {
  }

  lemma {:induction false} FixedKeys()
    ensures IsAscii("id") && IsAscii("type") && IsAscii("properties") && IsAscii("from") && IsAscii("to")
    ensures IsAscii("canvas") && IsAscii("nodes") && IsAscii("connections")
  {
  }

  lemma {:induction false} PropertiesHeard(num: NumReader, show: NumWriter, n: Graph.GNode)
    requires NumbersPrint(num, show, n)
    ensures MembersReadable(num, PrintStrs(n.strs)) && HoldsStrs(MemberValues(num, PrintStrs(n.strs)), n.strs)
    ensures MembersReadable(num, PrintProperties(show, n))
    ensures HoldsNums(MemberValues(num, PrintProperties(show, n)), n.nums, MemberValues(num, PrintStrs(n.strs)))
  {
    hide HoldsNums, HoldsStrs, MembersReadable, MemberValues, Prints, PrintNums, PrintStrs;
    StrsHeard(num, n.strs);
    NumsHeard(num, show, n.nums, PrintStrs(n.strs));
  }

  /** The value of a printed node, its strings as they are heard. */
  lemma {:induction false} NodeHeard(num: NumReader, show: NumWriter, n: Graph.GNode)
    requires NumbersPrint(num, show, n)
    ensures MembersReadable(num, PrintProperties(show, n)) && Readable(num, PrintNode(show, n))
    ensures Value(num, PrintNode(show, n))
            == Obj(map["id" := Str(HeardText(n.id)), "type" := Str(HeardText(n.ntype)),
                       "properties" := Obj(MemberValues(num, PrintProperties(show, n)))])
  {
    hide Field, StrDoc, PrintProperties, HeardText, IsAscii, Readable, Value, MembersReadable, MemberValues;
    hide NumbersPrint, HoldsNums, HoldsStrs;
    FixedKeys();
    PropertiesHeard(num, show, n);
    StrDocHeard(num, n.id);
    StrDocHeard(num, n.ntype);
    ObjHeard(num, PrintProperties(show, n));
    ThreeFields(num, "id", StrDoc(n.id), "type", StrDoc(n.ntype), "properties", DObj([], PrintProperties(show, n)));
  }

  lemma {:induction false} HeardFieldsAscii(strs: map<string, string>)
    requires forall k :: k in strs ==> IsAscii(strs[k])
    ensures HeardFields(strs) == StrFields(strs)
  {
    hide HeardText, IsAscii;
    forall k | k in strs ensures HeardText(strs[k]) == strs[k] { HeardTextIff(strs[k]); }
  }

  lemma {:induction false} NodePrinted(num: NumReader, show: NumWriter, n: Graph.GNode)
    requires NumbersPrint(num, show, n) && NodeAscii(n)
    ensures Readable(num, PrintNode(show, n)) && Value(num, PrintNode(show, n)) == NodeJson(n)
  {
    hide IsAscii, NumbersPrint, MembersReadable, MemberValues, Readable, Value, PrintNode, PrintProperties, PrintStrs;
    hide HeardText, HeardFields, StrFields, NumFields;
    NodeHeard(num, show, n);
    HeardTextIff(n.id);
    HeardTextIff(n.ntype);
    PropertiesHeard(num, show, n);
    HeardFieldsAscii(n.strs);
  }

  /** The value of a printed connection, its ends as they are heard. */
  lemma {:induction false} ConnectionHeard(num: NumReader, c: (string, string))
    ensures Readable(num, PrintConnection(c))
    ensures Value(num, PrintConnection(c)) == ConnectionJson((HeardText(c.0), HeardText(c.1)))
  {
    FixedKeys();
    hide IsAscii, Field, Readable, Value, StrDoc, HeardText;
    StrDocHeard(num, c.0);
    StrDocHeard(num, c.1);
    TwoFields(num, "from", StrDoc(c.0), "to", StrDoc(c.1));
  }

  lemma {:induction false} NodesHeard(num: NumReader, show: NumWriter, nodes: seq<Graph.GNode>)
    requires forall i :: 0 <= i < |nodes| ==> NumbersPrint(num, show, nodes[i])
    ensures var es := PrintNodes(show, nodes);
      && ElemsReadable(num, es) && |ElemValues(num, es)| == |nodes|
      && forall i :: 0 <= i < |nodes| ==>
           Readable(num, PrintNode(show, nodes[i])) && ElemValues(num, es)[i] == Value(num, PrintNode(show, nodes[i]))
  {
    hide NumbersPrint, PrintNode, Readable, Value;
    if nodes != [] {
      NodeReadable(num, show, nodes[0]);
      NodesHeard(num, show, nodes[1..]);
      var es := PrintNodes(show, nodes);
      assert ElemValues(num, es) == [Value(num, PrintNode(show, nodes[0]))] + ElemValues(num, es.rest);
    }
  }

  lemma {:induction false} NodeReadable(num: NumReader, show: NumWriter, n: Graph.GNode)
    requires NumbersPrint(num, show, n)
    ensures Readable(num, PrintNode(show, n))
  {
    hide *;
    NodeHeard(num, show, n);
  }

  lemma {:induction false} ConnectionsHeard(num: NumReader, cs: seq<(string, string)>)
    ensures var es := PrintConnections(cs);
      && ElemsReadable(num, es) && |ElemValues(num, es)| == |cs|
      && forall i :: 0 <= i < |cs| ==>
           ElemValues(num, es)[i] == ConnectionJson((HeardText(cs[i].0), HeardText(cs[i].1)))
  {
    hide PrintConnection, Readable, Value, ConnectionJson, HeardText;
    if cs != [] {
      ConnectionHeard(num, cs[0]);
      ConnectionsHeard(num, cs[1..]);
      var es := PrintConnections(cs);
      assert ElemValues(num, es) == [Value(num, PrintConnection(cs[0]))] + ElemValues(num, es.rest);
    }
  }

  /** The value of a printed graph. */
  lemma {:induction false} SpecHeard(num: NumReader, show: NumWriter, spec: Graph.GraphSpec)
    requires Printable(num, show, spec)
    ensures var nodes, connections := PrintNodes(show, spec.nodes), PrintConnections(spec.connections);
      && ElemsReadable(num, nodes) && ElemsReadable(num, connections) && Readable(num, Print(show, spec))
      && Value(num, Print(show, spec))
         == Obj(map["canvas" := Obj(map["nodes" := Arr(ElemValues(num, nodes)),
                                        "connections" := Arr(ElemValues(num, connections))])])
  {
    FixedKeys();
    hide IsAscii, Field, NumbersPrint, PrintNodes, PrintConnections, ElemValues, ElemsReadable;
    NodesHeard(num, show, spec.nodes);
    ConnectionsHeard(num, spec.connections);
    var nodes, connections := DArr([], PrintNodes(show, spec.nodes)), DArr([], PrintConnections(spec.connections));
    hide Readable, Value;
    ArrHeard(num, PrintNodes(show, spec.nodes));
    ArrHeard(num, PrintConnections(spec.connections));
    TwoFields(num, "nodes", nodes, "connections", connections);
    OneField(num, "canvas", DObj([], Field("nodes", nodes, Field("connections", connections, NoMembers))));
  }

  // ------------------------------------------------------------ only ASCII comes back

  ghost predicate Closed(keys: set<string>) {
    forall k :: k in keys ==> HeardText(k) in keys
  }

  /** A finite set of strings that is closed under hearing is all ASCII: what is not gets longer. */
  lemma {:induction false} ClosedIsAscii(keys: set<string>, k: string, bound: nat)
    requires k in keys && Closed(keys) && forall x :: x in keys ==> |x| <= bound
    ensures IsAscii(k)
    decreases bound - |k|
  {
    hide HeardText, IsAscii;
    HeardTextIff(k);
    if !IsAscii(k) { ClosedIsAscii(keys, HeardText(k), bound); }
  }

  lemma {:induction false} LengthsBounded(keys: set<string>) returns (bound: nat)
    ensures forall x :: x in keys ==> |x| <= bound
    decreases |keys|
  {
    bound := 0;
    if keys != {} {
      var x :| x in keys;
      var less := LengthsBounded(keys - {x});
      bound := if |x| < less then less else |x|;
      assert keys == keys - {x} + {x};
    }
  }

  /** If a printed node comes back, it is all ASCII. */
  lemma {:induction false} NodeBackAscii(num: NumReader, show: NumWriter, n: Graph.GNode)
    requires NumbersPrint(num, show, n)
    requires Readable(num, PrintNode(show, n)) && NodeOf(Value(num, PrintNode(show, n))) == n
    ensures NodeAscii(n)
  {
    hide IsAscii, NumbersPrint, MembersReadable, MemberValues, Readable, Value, PrintNode, PrintProperties, PrintStrs;
    hide HeardText, HoldsStrs, HoldsNums, NumsOf, StrsOf, KeysAscii;
    NodeHeard(num, show, n);
    PropertiesHeard(num, show, n);
    var m, r := MemberValues(num, PrintProperties(show, n)), MemberValues(num, PrintStrs(n.strs));
    HeardTextIff(n.id);
    HeardTextIff(n.ntype);
    assert HeardText(n.id) == n.id && HeardText(n.ntype) == n.ntype && NumsOf(m) == n.nums && StrsOf(m) == n.strs;
    PropertiesBackAscii(m, r, n);
  }

  /** The keys of a node that came back are its own, and hearing leads from one to another. */
  lemma {:induction false} KeysClosed(m: map<string, Json>, r: map<string, Json>, n: Graph.GNode)
    requires HoldsStrs(r, n.strs) && HoldsNums(m, n.nums, r) && NumsOf(m) == n.nums && StrsOf(m) == n.strs
    ensures forall k :: k in m.Keys <==> k in n.nums || k in n.strs
    ensures Closed(m.Keys)
  {
    hide HeardText, IsAscii, HeardFields, NumFields;
    forall k ensures k in m.Keys <==> k in n.nums || k in n.strs {
      if k in m {
        assert m[k].Num? || (k in r && m[k] == r[k]);
        assert k in NumsOf(m) || k in StrsOf(m);
      }
    }
  }

  lemma {:induction false} KeysBackAscii(m: map<string, Json>, r: map<string, Json>, n: Graph.GNode)
    requires HoldsStrs(r, n.strs) && HoldsNums(m, n.nums, r) && NumsOf(m) == n.nums && StrsOf(m) == n.strs
    ensures KeysAscii(n)
  {
    hide HeardText, IsAscii, HoldsStrs, HoldsNums, NumsOf, StrsOf, Closed;
    KeysClosed(m, r, n);
    var bound := LengthsBounded(m.Keys);
    forall k | k in m.Keys ensures IsAscii(k) { ClosedIsAscii(m.Keys, k, bound); }
    assert forall k :: k in n.nums || k in n.strs ==> k in m.Keys;
  }

  lemma {:induction false} PropertiesBackAscii(m: map<string, Json>, r: map<string, Json>, n: Graph.GNode)
    requires HoldsStrs(r, n.strs) && HoldsNums(m, n.nums, r) && NumsOf(m) == n.nums && StrsOf(m) == n.strs
    ensures KeysAscii(n) && forall k :: k in n.strs ==> IsAscii(n.strs[k])
  {
    hide HeardText, IsAscii, HeardFields, NumFields, NumsOf, StrsOf;
    KeysBackAscii(m, r, n);
    FieldsBackAscii(m, n);
  }

  lemma {:induction false} FieldsBackAscii(m: map<string, Json>, n: Graph.GNode)
    requires m == NumFields(n.nums) + HeardFields(n.strs) && StrsOf(m) == n.strs
    ensures forall k :: k in n.strs ==> IsAscii(n.strs[k])
  {
    hide HeardText, IsAscii;
    forall k | k in n.strs ensures IsAscii(n.strs[k]) {
      assert m[k] == Str(HeardText(n.strs[k]));
      HeardTextIff(n.strs[k]);
    }
  }

  lemma {:induction false} NodesAt(items: seq<Json>)
    ensures |NodesOf(items)| == |items| && forall i :: 0 <= i < |items| ==> NodesOf(items)[i] == NodeOf(items[i])
  {
    hide NodeOf;
    if items != [] { NodesAt(items[..|items| - 1]); }
  }

  /** If printed connections all come back, their ends are ASCII. */
  lemma {:induction false} ConnectionsBackAscii(items: seq<Json>, cs: seq<(string, string)>)
    requires |items| == |cs| && ConnectionsOf(items) == cs
    requires forall i :: 0 <= i < |cs| ==> items[i] == ConnectionJson((HeardText(cs[i].0), HeardText(cs[i].1)))
    ensures forall i :: 0 <= i < |cs| ==> IsAscii(cs[i].0) && IsAscii(cs[i].1)
  {
    hide HeardText, IsAscii, ConnectionJson, ConnectionsOf, Joins;
    if cs != [] {
      var heard := (HeardText(cs[0].0), HeardText(cs[0].1));
      ConnectionsCons(items);
      ConnectionBack(heard);
      if items[1..] != [] { ConnectionsCons(items[1..]); } else { NoConnections(); }
      assert |ConnectionsOf([items[0]])| == 1;
      assert cs[0] == heard && ConnectionsOf(items[1..]) == cs[1..];
      HeardTextIff(cs[0].0);
      HeardTextIff(cs[0].1);
      ConnectionsBackAscii(items[1..], cs[1..]);
    }
  }

  lemma {:induction false} NoConnections()
    ensures ConnectionsOf([]) == []
  {
  }

  /** If a printed graph comes back, it is all ASCII. */
  lemma {:induction false} SpecBackAscii(num: NumReader, show: NumWriter, spec: Graph.GraphSpec)
    requires Printable(num, show, spec)
    requires Readable(num, Print(show, spec)) && SpecOf(Value(num, Print(show, spec))) == Ok(spec)
    ensures AllAscii(spec)
  {
    hide IsAscii, HeardText, NumbersPrint, NodeAscii, Readable, Print, PrintNode, PrintNodes, PrintConnections;
    hide ConnectionJson, ElemsReadable, ElemValues, NodesOf, ConnectionsOf, NodeOf, Value;
    SpecHeard(num, show, spec);
    NodesHeard(num, show, spec.nodes);
    ConnectionsHeard(num, spec.connections);
    var nodes, cs := ElemValues(num, PrintNodes(show, spec.nodes)), ElemValues(num, PrintConnections(spec.connections));
    CanvasBack(nodes, cs);
    NodesAt(nodes);
    forall i | 0 <= i < |spec.nodes| ensures NodeAscii(spec.nodes[i]) {
      NodeBackAscii(num, show, spec.nodes[i]);
    }
    ConnectionsBackAscii(cs, spec.connections);
  }

  lemma {:induction false} CanvasBack(nodes: seq<Json>, cs: seq<Json>)
    ensures SpecOf(Obj(map["canvas" := Obj(map["nodes" := Arr(nodes), "connections" := Arr(cs)])]))
            == Ok(Graph.GraphSpec(NodesOf(nodes), ConnectionsOf(cs)))
  {
    hide NodesOf, ConnectionsOf;
    var canvas := Obj(map["nodes" := Arr(nodes), "connections" := Arr(cs)]);
    assert ItemsAt(canvas, "nodes") == nodes && ItemsAt(canvas, "connections") == cs;
  }

  lemma {:induction false} SpecPrinted(num: NumReader, show: NumWriter, spec: Graph.GraphSpec)
    requires Printable(num, show, spec) && AllAscii(spec)
    ensures Readable(num, Print(show, spec)) && Value(num, Print(show, spec)) == JsonOf(spec)
  {
    hide IsAscii, HeardText, NumbersPrint, NodeAscii, Readable, Print, PrintNode, PrintNodes, PrintConnections;
    hide ConnectionJson, NodeJson, ElemsReadable, ElemValues, Value;
    SpecHeard(num, show, spec);
    NodesHeard(num, show, spec.nodes);
    ConnectionsHeard(num, spec.connections);
    var nodes, cs := ElemValues(num, PrintNodes(show, spec.nodes)), ElemValues(num, PrintConnections(spec.connections));
    NodeJsonsAt(spec.nodes);
    ConnectionJsonsAt(spec.connections);
    forall i | 0 <= i < |spec.nodes| ensures nodes[i] == NodeJsons(spec.nodes)[i] {
      NodePrinted(num, show, spec.nodes[i]);
    }
    forall i | 0 <= i < |spec.connections| ensures cs[i] == ConnectionJsons(spec.connections)[i] {
      HeardTextIff(spec.connections[i].0);
      HeardTextIff(spec.connections[i].1);
    }
    assert nodes == NodeJsons(spec.nodes) && cs == ConnectionJsons(spec.connections);
  }

  lemma {:induction false} NodeJsonsAt(nodes: seq<Graph.GNode>)
    ensures |NodeJsons(nodes)| == |nodes| && forall i :: 0 <= i < |nodes| ==> NodeJsons(nodes)[i] == NodeJson(nodes[i])
  {
    hide NodeJson;
    if nodes != [] { NodeJsonsAt(nodes[1..]); }
  }

  lemma {:induction false} ConnectionJsonsAt(cs: seq<(string, string)>)
    ensures |ConnectionJsons(cs)| == |cs|
    ensures forall i :: 0 <= i < |cs| ==> ConnectionJsons(cs)[i] == ConnectionJson(cs[i])
  {
    hide ConnectionJson;
    if cs != [] { ConnectionJsonsAt(cs[1..]); }
  }

  /** A graph whose numbers print comes back from its own text if and only if it can be written
      down and all its strings are made of one-byte characters. */
  lemma {:induction false} PrintedRoundTrip(num: NumReader, show: NumWriter, spec: Graph.GraphSpec)
    requires Printable(num, show, spec)
    ensures SpecOfText(num, Text(Print(show, spec))) == Ok(spec) <==> Writable(spec) && AllAscii(spec)
  {
    assert AllSpace([]);
    hide *;
    var d := Print(show, spec);
    SpecHeard(num, show, spec);
    ReadBack(num, d, [], []);
    assert [] + Text(d) + [] == Text(d);
    if SpecOf(Value(num, d)) == Ok(spec) { SpecBackAscii(num, show, spec); }
    if AllAscii(spec) {
      SpecPrinted(num, show, spec);
      SpecBackIff(spec);
    }
  }
}
