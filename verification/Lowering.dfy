/** Lowering the graph to an openEO process graph, and the meaning it keeps. */
module Lowering {
  import opened Wrappers
  import opened Stages
  import opened Json
  import opened Graph
  import opened Paths
  import opened Typing
  import opened Ordering
  import opened Layout
  import opened Output

  function ProcessName(p: Process): string {
    match p
    case LoadCollection => "load_collection"
    case FilterTemporal => "filter_temporal"
    case Ndvi => "ndvi"
    case ReduceDimension => "reduce_dimension"
    case RunUdf => "run_udf"
    case LinearScaleRange => "linear_scale_range"
    case MergeCubes => "merge_cubes"
    case SaveResult => "save_result"
    case Other(name) => name
  }

  // ----- What is lowered -----

  /** A parameter as lowered: a child graph under its owner's prefix, anything else verbatim. */
  ghost predicate LowersParam(owner: Id, value: Json, out: Json) {
    match value
    case Child(nodes, _) => out.Child? && out.rest == map[] && IsPrefixed(owner, nodes, out.nodes)
    case _ => out == value
  }

  /** A reference to the node feeding a port, if the port is fed. */
  function PortArg(es: seq<Edge>, id: Id, port: Port): Option<Json> {
    match SourceOf(es, id, port)
    case None => None
    case Some(s) => Some(Ref(s))
  }

  /** The argument names a node's fed ports take. */
  function FedNames(es: seq<Edge>, id: Id, ports: seq<Port>): set<string> {
    set port | port in ports && SourceOf(es, id, port).Some? :: PortName(port)
  }

  /** The arguments of a lowered node: its fed ports as references, and its parameters
      under every other name. */
  ghost predicate LowersArgs(dag: Dag, node: Node, args: map<string, Json>) {
    var fed := FedNames(dag.edges, node.id, Inputs(node.process));
    args.Keys == node.params.Keys + fed &&
    (forall k :: k in node.params && k !in fed ==> LowersParam(node.id, node.params[k], args[k])) &&
    (forall port :: port in Inputs(node.process) && PortName(port) in fed ==>
      PortArg(dag.edges, node.id, port) == Some(args[PortName(port)]))
  }

  function LoweredNode(process: Process, args: map<string, Json>, result: bool): Json {
    if result then Obj(map["process_id" := Str(ProcessName(process)), "arguments" := Obj(args), "result" := Bool(true)])
    else Obj(map["process_id" := Str(ProcessName(process)), "arguments" := Obj(args)])
  }

  ghost predicate LowersNode(dag: Dag, node: Node, out: Json) {
    exists args :: LowersArgs(dag, node, args) && out == LoweredNode(node.process, args, IsOutput(dag, node.id))
  }

  /** The lowered graph: one entry per ordered node, under its id. */
  ghost predicate Lowers(dag: Dag, graph: Scope) {
    (forall n :: n in Order(dag) ==> n.id in graph && LowersNode(dag, n, graph[n.id])) &&
    (forall id :: id in graph ==> exists n :: n in Order(dag) && n.id == id)
  }

  /** A fed port's cube stands under `name`. */
  predicate CubeUnder(dag: Dag, node: Node, args: map<string, Json>, port: Port, name: string) {
    var source := SourceOf(dag.edges, node.id, port);
    source.Some? ==> name in args && args[name] == Ref(source.value)
  }

  /** Each cube is written under the argument the process reads it by. */
  predicate CubesWritten(dag: Dag, node: Node, args: map<string, Json>) {
    match node.process
    case LoadCollection => true
    case MergeCubes => CubeUnder(dag, node, args, Cube1, "cube1") && CubeUnder(dag, node, args, Cube2, "cube2")
    case LinearScaleRange => CubeUnder(dag, node, args, X, "x")
    case Other(_) => true
    case _ => CubeUnder(dag, node, args, Data, "data")
  }

  lemma CubesUnderNames(dag: Dag, node: Node, args: map<string, Json>)
    requires LowersArgs(dag, node, args)
    ensures CubesWritten(dag, node, args)
  {
    hide LowersParam, SourceOf;
    forall port | port in Inputs(node.process)
      ensures CubeUnder(dag, node, args, port, PortName(port))
    {
      if SourceOf(dag.edges, node.id, port).Some? {
        assert PortName(port) in FedNames(dag.edges, node.id, Inputs(node.process));
      }
    }
    assert node.process.MergeCubes? ==> Cube1 in Inputs(node.process) && Cube2 in Inputs(node.process);
  }

  lemma PortNamesApart(p: Process, a: Port, b: Port)
    requires a in Inputs(p) && b in Inputs(p) && a != b
    ensures PortName(a) != PortName(b)
  {
    assert "cube1"[4] != "cube2"[4];
  }

  /** The parameters, each lowered under its own name. */
  method LowerParams(node: Node) returns (args: map<string, Json>)
    ensures args.Keys == node.params.Keys
    ensures forall k :: k in args ==> LowersParam(node.id, node.params[k], args[k])
  {
    hide IsPrefixed;
    args := map[];
    var names := node.params.Keys;
    while names != {}
      invariant names <= node.params.Keys && args.Keys == node.params.Keys - names
      invariant forall k :: k in args ==> LowersParam(node.id, node.params[k], args[k])
      decreases names
    {
      var k :| k in names;
      var value := node.params[k];
      if value.Child? {
        var prefixed := PrefixChild(node.id, value.nodes);
        args := args[k := Child(prefixed, map[])];
      } else {
        args := args[k := value];
      }
      names := names - {k};
    }
  }

  /** A node's arguments: parameters first, then the fed ports over them. */
  method LowerArgs(dag: Dag, node: Node) returns (args: map<string, Json>)
    ensures LowersArgs(dag, node, args) && CubesWritten(dag, node, args)
  {
    hide LowersParam, PortName, FedNames, CubesWritten;
    args := LowerParams(node);
    var ports := Inputs(node.process);
    NoFedNames(dag.edges, node.id, ports);
    for i := 0 to |ports|
      invariant args.Keys == node.params.Keys + FedNames(dag.edges, node.id, ports[..i])
      invariant forall k :: k in node.params && k !in FedNames(dag.edges, node.id, ports[..i]) ==>
        LowersParam(node.id, node.params[k], args[k])
      invariant forall j :: 0 <= j < i && PortName(ports[j]) in FedNames(dag.edges, node.id, ports[..i]) ==>
        PortArg(dag.edges, node.id, ports[j]) == Some(args[PortName(ports[j])])
    {
      PortNamesBefore(dag.edges, node.id, node.process, i);
      FedNamesSnoc(dag.edges, node.id, ports, i);
      var edge := Feeding(dag.edges, node.id, ports[i]);
      if edge.Some? {
        args := args[PortName(ports[i]) := Ref(edge.value.from.node)];
      }
    }
    assert ports[..|ports|] == ports;
    CubesUnderNames(dag, node, args);
  }

  lemma NoFedNames(es: seq<Edge>, id: Id, ports: seq<Port>)
    ensures FedNames(es, id, ports[..0]) == {}
  {
  }

  lemma PortNamesBefore(es: seq<Edge>, id: Id, p: Process, i: nat)
    requires i < |Inputs(p)|
    ensures PortName(Inputs(p)[i]) !in FedNames(es, id, Inputs(p)[..i])
    ensures forall j :: 0 <= j < i ==> PortName(Inputs(p)[j]) != PortName(Inputs(p)[i])
  {
    forall j | 0 <= j < i
      ensures PortName(Inputs(p)[j]) != PortName(Inputs(p)[i])
    {
      PortNamesApart(p, Inputs(p)[j], Inputs(p)[i]);
    }
  }

  lemma FedNamesSnoc(es: seq<Edge>, id: Id, ports: seq<Port>, i: nat)
    requires i < |ports|
    ensures FedNames(es, id, ports[..i + 1])
         == FedNames(es, id, ports[..i]) + (if SourceOf(es, id, ports[i]).Some? then {PortName(ports[i])} else {})
  {
    assert ports[..i + 1] == ports[..i] + [ports[i]];
  }

  /** Lowers the graph, node by node along the ordering. */
  method Lower(dag: Dag) returns (graph: Scope)
    requires WellFormed(dag)
    ensures Lowers(dag, graph)
  {
    hide Order, WellFormed, Keyed, UniqueIds, EndsOnCanvas, LowersNode, LowersArgs, LoweredNode, OutputNode, IsOutput;
    var out := OutputNode(dag.nodes);
    WellFormedEnds(dag);
    var order := Topological(dag);
    graph := map[];
    for i := 0 to |order|
      invariant forall j :: 0 <= j < i ==> order[j].id in graph && LowersNode(dag, order[j], graph[order[j].id])
      invariant forall id :: id in graph ==> exists j :: 0 <= j < i && order[j].id == id
    {
      var node := order[i];
      var args := LowerArgs(dag, node);
      var isOut := out.Some? && node.id == out.value.id;
      LoweredByArgs(dag, node, args);
      forall j | 0 <= j < i
        ensures order[j].id != node.id
      {
        OrderNoDuplicates(dag, j, i);
      }
      graph := graph[node.id := LoweredNode(node.process, args, isOut)];
    }
  }

  lemma LoweredByArgs(dag: Dag, node: Node, args: map<string, Json>)
    requires LowersArgs(dag, node, args)
    ensures var out := OutputNode(dag.nodes);
            LowersNode(dag, node, LoweredNode(node.process, args, out.Some? && node.id == out.value.id))
  {
    hide LowersArgs, LoweredNode;
  }

  // ----- The meaning of the graph -----

  /** The input port an argument name belongs to. */
  function PortNamed(ports: seq<Port>, name: string): (r: Option<Port>)
    ensures r.Some? ==> r.value in ports && PortName(r.value) == name
    ensures r.None? ==> forall port :: port in ports ==> PortName(port) != name
  {
    if ports == [] then None
    else if PortName(ports[0]) == name then Some(ports[0])
    else PortNamed(ports[1..], name)
  }

  function ArgNames(dag: Dag, node: Node): set<string> {
    node.params.Keys + FedNames(dag.edges, node.id, Inputs(node.process))
  }

  /** The value at a node's output, read off the port wiring at most `n` nodes deep.
      References that parameters hold themselves are read in `scope`. */
  ghost function DagTerm(dag: Dag, scope: Scope, n: nat, id: Id): Term
    decreases n, 0
  {
    if n == 0 then TCut
    else
      match NodeOf(dag.nodes, id)
      case None => TDangling
      case Some(node) => NodeValue(dag, scope, n - 1, node)
  }

  /** A node's process applied to its arguments. */
  ghost function NodeValue(dag: Dag, scope: Scope, n: nat, node: Node): Term
    decreases n, 3
  {
    CallTerm(node.process, ArgTerms(dag, scope, n, node))
  }

  ghost function ArgTerms(dag: Dag, scope: Scope, n: nat, node: Node): map<string, Term>
    decreases n, 2
  {
    map k | k in ArgNames(dag, node) :: ArgTerm(dag, scope, n, node, k)
  }

  /** The arguments of a lowered node, resolved. */
  ghost function Resolved(scope: Scope, n: nat, args: map<string, Json>): map<string, Term> {
    map k | k in args :: Resolve(scope, n, args[k])
  }

  ghost function CallTerm(p: Process, args: map<string, Term>): Term {
    TObj(map["process_id" := TStr(ProcessName(p)), "arguments" := TObj(args)])
  }

  /** An argument: the cube at the port of that name if one is fed, else the parameter. */
  ghost function ArgTerm(dag: Dag, scope: Scope, n: nat, node: Node, name: string): Term
    requires name in ArgNames(dag, node)
    decreases n, 1
  {
    var fed := FedSource(dag, node, name);
    if fed.Some? then DagTerm(dag, scope, n, fed.value)
    else if name in node.params then Resolve(scope, n, node.params[name])
    else TDangling
  }

  function FedSource(dag: Dag, node: Node, name: string): Option<Id> {
    match PortNamed(Inputs(node.process), name)
    case None => None
    case Some(port) => SourceOf(dag.edges, node.id, port)
  }

  /** The node's child graphs keep their meaning under a prefix. */
  ghost predicate ParamsLowerable(node: Node) {
    forall k :: k in node.params && node.params[k].Child? ==> Prefixable(node.params[k].nodes)
  }

  // ----- Meaning preservation -----

  lemma FedNamed(dag: Dag, node: Node, name: string)
    ensures name in FedNames(dag.edges, node.id, Inputs(node.process)) <==> FedSource(dag, node, name).Some?
  {
    var ports := Inputs(node.process);
    forall port | port in ports && PortName(port) == name
      ensures PortNamed(ports, name) == Some(port)
    {
      var found := PortNamed(ports, name).value;
      if found != port {
        PortNamesApart(node.process, found, port);
      }
    }
  }

  lemma ResolveObj(scope: Scope, n: nat, args: map<string, Json>)
    ensures Resolve(scope, n, Obj(args)) == TObj(Resolved(scope, n, args))
  {
    assert Resolve(scope, n, Obj(args)).fields == Resolved(scope, n, args);
  }

  lemma LoweredFields(p: Process, args: map<string, Json>, result: bool)
    ensures var fields := LoweredNode(p, args, result).fields;
            fields.Keys - {"result"} == {"process_id", "arguments"} &&
            fields["process_id"] == Str(ProcessName(p)) && fields["arguments"] == Obj(args)
    ensures IsResult(LoweredNode(p, args, result)) <==> result
  {
    hide ProcessName;
    assert "arguments" != "process_id" && "result" != "arguments" && "result" != "process_id";
    if result {
      assert LoweredNode(p, args, true).fields.Keys == {"process_id", "arguments", "result"};
    } else {
      assert LoweredNode(p, args, false).fields.Keys == {"process_id", "arguments"};
    }
  }

  lemma LoweredNodeTerm(scope: Scope, n: nat, p: Process, args: map<string, Json>, result: bool)
    ensures NodeTerm(scope, n, LoweredNode(p, args, result)) == CallTerm(p, Resolved(scope, n, args))
    ensures IsResult(LoweredNode(p, args, result)) <==> result
  {
    hide Resolved, ProcessName, IsResult, NodeTerm;
    LoweredFields(p, args, result);
    FieldsTerm(scope, n, p, args, LoweredNode(p, args, result).fields);
  }

  lemma FieldsTerm(scope: Scope, n: nat, p: Process, args: map<string, Json>, fields: map<string, Json>)
    requires fields.Keys - {"result"} == {"process_id", "arguments"}
    requires fields["process_id"] == Str(ProcessName(p)) && fields["arguments"] == Obj(args)
    ensures NodeTerm(scope, n, Obj(fields)) == CallTerm(p, Resolved(scope, n, args))
  {
    hide Resolved, ProcessName;
    ResolveObj(scope, n, args);
    var before := NodeTerm(scope, n, Obj(fields)).fields;
    var after := CallTerm(p, Resolved(scope, n, args)).fields;
    assert before.Keys == fields.Keys - {"result"};
    assert before["process_id"] == Resolve(scope, n, Str(ProcessName(p))) == TStr(ProcessName(p));
    assert before["arguments"] == Resolve(scope, n, Obj(args));
    assert before == after;
  }

  lemma LoweredParamTerm(owner: Id, value: Json, out: Json, scope: Scope, n: nat)
    requires LowersParam(owner, value, out) && (value.Child? ==> Prefixable(value.nodes))
    ensures Resolve(scope, n, out) == Resolve(scope, n, value)
  {
    match value
    case Child(nodes, rest) => PrefixedChildTerm(owner, nodes, rest, out.nodes, scope, scope, n);
    case _ =>
  }

  /** Every source of an ordered node is lowered. */
  lemma SourceLowered(dag: Dag, graph: Scope, node: Node, name: string)
    requires WellFormed(dag) && Lowers(dag, graph) && node in Order(dag)
    requires FedSource(dag, node, name).Some?
    ensures FedSource(dag, node, name).value in graph
  {
    hide Order;
    var port := PortNamed(Inputs(node.process), name).value;
    var e := Feeding(dag.edges, node.id, port).value;
    FeedingIn(dag.edges, node.id, port);
    WellFormedEnds(dag);
    var j :| 0 <= j < |Order(dag)| && Order(dag)[j] == node;
    var i := SourcesFirst(dag, e, j);
    assert Order(dag)[i] in Order(dag);
  }

  lemma OrderedNode(dag: Dag, n: Node)
    requires WellFormed(dag) && n in Order(dag)
    ensures n in dag.nodes && NodeOf(dag.nodes, n.id) == Some(n)
  {
    LayersMember(dag, |dag.nodes|, n);
    NodeOfUnique(dag.nodes, n);
  }

  /** Lowering preserves meaning: following references through the lowered graph gives
      every node the value its port wiring gives it, to every depth. */
  lemma {:induction false} LowerPreserves(dag: Dag, graph: Scope, n: nat, id: Id)
    requires WellFormed(dag) && Lowers(dag, graph) && id in graph
    requires forall node :: node in dag.nodes ==> ParamsLowerable(node)
    ensures Resolve(graph, n, Ref(id)) == DagTerm(dag, graph, n, id)
    decreases n, -1
  {
    hide Order, WellFormed, LowersNode, ParamsLowerable, NodeValue, IsResult, IsOutput;
    if n > 0 {
      var node :| node in Order(dag) && node.id == id;
      OrderedNode(dag, node);
      LowerPreservesNode(dag, graph, n - 1, node);
    }
  }

  lemma {:induction false} LowerPreservesNode(dag: Dag, graph: Scope, n: nat, node: Node)
    requires WellFormed(dag) && Lowers(dag, graph) && node in Order(dag)
    requires forall node :: node in dag.nodes ==> ParamsLowerable(node)
    ensures node.id in graph && NodeTerm(graph, n, graph[node.id]) == NodeValue(dag, graph, n, node)
    ensures IsResult(graph[node.id]) <==> IsOutput(dag, node.id)
    decreases n, 1
  {
    hide Order, WellFormed, ParamsLowerable, NodeTerm, IsResult, IsOutput;
    hide ArgTerm, LoweredNode, Resolve, FedNames, LowersParam, PortArg, FedSource;
    var args :|
      LowersArgs(dag, node, args) && graph[node.id] == LoweredNode(node.process, args, IsOutput(dag, node.id));
    LoweredNodeTerm(graph, n, node.process, args, IsOutput(dag, node.id));
    OrderedNode(dag, node);
    forall k | k in args
      ensures Resolve(graph, n, args[k]) == ArgTerm(dag, graph, n, node, k)
    {
      LowerPreservesArg(dag, graph, n, node, args, k);
    }
    assert Resolved(graph, n, args) == ArgTerms(dag, graph, n, node);
  }

  lemma {:induction false} LowerPreservesArg(dag: Dag, graph: Scope, n: nat, node: Node,
                                             args: map<string, Json>, k: string)
    requires WellFormed(dag) && Lowers(dag, graph) && node in Order(dag) && node in dag.nodes
    requires forall node :: node in dag.nodes ==> ParamsLowerable(node)
    requires LowersArgs(dag, node, args) && k in args
    ensures Resolve(graph, n, args[k]) == ArgTerm(dag, graph, n, node, k)
    decreases n, 0
  {
    hide Order, WellFormed;
    FedNamed(dag, node, k);
    if FedSource(dag, node, k).Some? {
      var port := PortNamed(Inputs(node.process), k).value;
      assert PortArg(dag.edges, node.id, port) == Some(args[k]);
      SourceLowered(dag, graph, node, k);
      LowerPreserves(dag, graph, n, FedSource(dag, node, k).value);
    } else {
      LoweredParamTerm(node.id, node.params[k], args[k], graph, n);
    }
  }

  /** On an acyclic graph every node is lowered, under its own id. */
  lemma LowersEveryNode(dag: Dag, graph: Scope)
    requires WellFormed(dag) && Acyclic(dag.edges) && Lowers(dag, graph)
    ensures graph.Keys == Ids(dag)
  {
    hide Order, WellFormed, LowersNode;
    WellFormedEnds(dag);
    forall n | n in dag.nodes
      ensures n in Order(dag)
    {
      AcyclicOrdersAll(dag, n);
    }
    forall n | n in Order(dag)
      ensures n in dag.nodes
    {
      OrderedNode(dag, n);
    }
  }

  /** The lowered graph as a whole denotes its output's value: exactly one node is marked
      as the result, and it is the output. */
  lemma LoweredGraphTerm(dag: Dag, graph: Scope, n: nat, scope: Scope)
    requires WellFormed(dag) && Acyclic(dag.edges) && Lowers(dag, graph)
    requires forall node :: node in dag.nodes ==> ParamsLowerable(node)
    requires OutputNode(dag.nodes).Some?
    ensures Resolve(scope, n, Child(graph, map[])) == TFun({NodeValue(dag, graph, n, OutputNode(dag.nodes).value)})
  {
    hide Order, WellFormed, NodeValue, NodeTerm, Lowers, ParamsLowerable, IsResult;
    var out := OutputNode(dag.nodes).value;
    OutputNodeIn(dag.nodes);
    LowersEveryNode(dag, graph);
    forall id | id in graph
      ensures IsResult(graph[id]) <==> id == out.id
    {
      MarkedResult(dag, graph, id);
    }
    MarkedResult(dag, graph, out.id);
    OutputLowered(dag, graph, n, out);
    var results := set k | k in graph && IsResult(graph[k]) :: NodeTerm(graph, n, graph[k]);
    assert results == {NodeTerm(graph, n, graph[out.id])};
  }

  lemma MarkedResult(dag: Dag, graph: Scope, id: Id)
    requires WellFormed(dag) && Lowers(dag, graph) && id in graph
    ensures IsResult(graph[id]) <==> IsOutput(dag, id)
  {
    var node :| node in Order(dag) && node.id == id;
    var args :|
      LowersArgs(dag, node, args) && graph[node.id] == LoweredNode(node.process, args, IsOutput(dag, node.id));
    LoweredFields(node.process, args, IsOutput(dag, node.id));
  }

  lemma OutputLowered(dag: Dag, graph: Scope, n: nat, out: Node)
    requires WellFormed(dag) && Acyclic(dag.edges) && Lowers(dag, graph) && out in dag.nodes
    requires forall node :: node in dag.nodes ==> ParamsLowerable(node)
    ensures out.id in graph && NodeTerm(graph, n, graph[out.id]) == NodeValue(dag, graph, n, out)
  {
    WellFormedEnds(dag);
    AcyclicOrdersAll(dag, out);
    LowerPreservesNode(dag, graph, n, out);
  }
}
