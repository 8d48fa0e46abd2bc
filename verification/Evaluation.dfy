/** Running a lowered graph as the server reads it: by the process ids and argument names
    written in it. */
module Evaluation {
  import opened Wrappers
  import opened Stages
  import opened Json
  import opened Graph
  import opened Paths
  import opened Typing
  import opened Ordering
  import opened Layout
  import opened Output
  import opened Lowering

  /** What the processes do: with the cubes they take and their other arguments. `absent` is
      an argument that is not there, and `plain` whatever is no call of a process. */
  datatype Operations<!V> = Operations(load: map<string, Term> -> V,
                                       one: (Process, V, map<string, Term>) -> V,
                                       join: (V, V, map<string, Term>) -> V,
                                       absent: V, plain: Term -> V)

  // ----- Reading the lowered graph -----

  predicate IsCall(t: Term) {
    t.TObj? && t.fields.Keys == {"process_id", "arguments"} && t.fields["process_id"].TStr? &&
    t.fields["arguments"].TObj?
  }

  /** The arguments of a call. */
  function Arguments(t: Term): map<string, Term>
    requires IsCall(t)
  {
    t.fields["arguments"].fields
  }

  /** A call run by its process id, its cubes looked up by argument name. */
  ghost function Run<V>(ops: Operations<V>, t: Term): V
    decreases t, 1
  {
    if !IsCall(t) then ops.plain(t)
    else
      var id, args := t.fields["process_id"].s, Arguments(t);
      if id == "load_collection" then ops.load(args)
      else if id == "filter_temporal" then ops.one(FilterTemporal, RunArgument(ops, t, "data"), args - {"data"})
      else if id == "ndvi" then ops.one(Ndvi, RunArgument(ops, t, "data"), args - {"data"})
      else if id == "reduce_dimension" then ops.one(ReduceDimension, RunArgument(ops, t, "data"), args - {"data"})
      else if id == "run_udf" then ops.one(RunUdf, RunArgument(ops, t, "data"), args - {"data"})
      else if id == "linear_scale_range" then ops.one(LinearScaleRange, RunArgument(ops, t, "x"), args - {"x"})
      else if id == "merge_cubes" then
        ops.join(RunArgument(ops, t, "cube1"), RunArgument(ops, t, "cube2"), args - {"cube1", "cube2"})
      else if id == "save_result" then ops.one(SaveResult, RunArgument(ops, t, "data"), args - {"data"})
      else ops.plain(t)
  }

  ghost function RunArgument<V>(ops: Operations<V>, t: Term, name: string): V
    requires IsCall(t)
    decreases t, 0
  {
    var arguments := t.fields["arguments"];
    match arguments
    case TObj(args) => if name in args then Run(ops, args[name]) else ops.absent
  }

  // ----- Running along the port wiring -----

  /** A step's output, its process run on the cubes its ports are fed. */
  ghost function Made<V>(ops: Operations<V>, dag: Dag, scope: Scope, n: nat, node: Node): V
    decreases n, 2
  {
    match node.process
    case LoadCollection => ops.load(Parameters(scope, n, node, {}))
    case MergeCubes =>
      ops.join(Given(ops, dag, scope, n, node, Cube1, "cube1"), Given(ops, dag, scope, n, node, Cube2, "cube2"),
               Parameters(scope, n, node, {"cube1", "cube2"}))
    case LinearScaleRange =>
      ops.one(LinearScaleRange, Given(ops, dag, scope, n, node, X, "x"), Parameters(scope, n, node, {"x"}))
    case Other(_) => ops.absent
    case p => ops.one(p, Given(ops, dag, scope, n, node, Data, "data"), Parameters(scope, n, node, {"data"}))
  }

  /** The cube at a port: what feeds it, or else a parameter written under its name. */
  ghost function Given<V>(ops: Operations<V>, dag: Dag, scope: Scope, n: nat, node: Node, port: Port, name: string): V
    decreases n, 1
  {
    match SourceOf(dag.edges, node.id, port)
    case Some(source) => MadeAt(ops, dag, scope, n, source)
    case None => if name in node.params then Run(ops, Resolve(scope, n, node.params[name])) else ops.absent
  }

  ghost function MadeAt<V>(ops: Operations<V>, dag: Dag, scope: Scope, n: nat, id: Id): V
    decreases n, 0
  {
    if n == 0 then ops.plain(TCut)
    else
      match NodeOf(dag.nodes, id)
      case None => ops.plain(TDangling)
      case Some(node) => Made(ops, dag, scope, n - 1, node)
  }

  /** The parameters not under a cube's name. */
  ghost function Parameters(scope: Scope, n: nat, node: Node, cubes: set<string>): map<string, Term> {
    map k | k in node.params && k !in cubes :: Resolve(scope, n, node.params[k])
  }

  // ----- The two agree -----

  /** The argument names of a process's ports, as they are written. */
  lemma WrittenNames(p: Process)
    requires Known(p)
    ensures p.MergeCubes? ==>
      PortNamed(Inputs(p), "cube1") == Some(Cube1) && PortNamed(Inputs(p), "cube2") == Some(Cube2)
    ensures p.LinearScaleRange? ==> PortNamed(Inputs(p), "x") == Some(X)
    ensures !p.MergeCubes? && !p.LinearScaleRange? && !p.LoadCollection? ==> PortNamed(Inputs(p), "data") == Some(Data)
  {
    assert "cube1"[4] != "cube2"[4];
  }

  /** The names a process's cubes stand under. */
  function CubeNames(p: Process): set<string> {
    match p
    case LoadCollection => {}
    case MergeCubes => {"cube1", "cube2"}
    case LinearScaleRange => {"x"}
    case _ => {"data"}
  }

  lemma OnlyCubesNamed(p: Process, name: string)
    requires Known(p) && PortNamed(Inputs(p), name).Some?
    ensures name in CubeNames(p)
  {
  }

  lemma IdsApart()
    ensures "load_collection" != "filter_temporal" && "merge_cubes" != "save_result"
    ensures forall p, q :: Known(p) && Known(q) && ProcessName(p) == ProcessName(q) ==> p == q
  {
    assert "load_collection"[0] != "filter_temporal"[0] && "merge_cubes"[0] != "save_result"[0];
    assert |"load_collection"| == 15 && |"filter_temporal"| == 15 && |"ndvi"| == 4 && |"reduce_dimension"| == 16;
    assert |"run_udf"| == 7 && |"linear_scale_range"| == 18 && |"merge_cubes"| == 11 && |"save_result"| == 11;
  }

  /** The process id written for a step runs the step's process. */
  lemma RunDispatches<V>(ops: Operations<V>, p: Process, args: map<string, Term>)
    requires Known(p)
    ensures IsCall(CallTerm(p, args)) && Arguments(CallTerm(p, args)) == args
    ensures var t, rest := CallTerm(p, args), args - CubeNames(p);
            Run(ops, t) ==
              match p
              case LoadCollection => ops.load(args)
              case MergeCubes => ops.join(RunArgument(ops, t, "cube1"), RunArgument(ops, t, "cube2"), rest)
              case LinearScaleRange => ops.one(p, RunArgument(ops, t, "x"), rest)
              case _ => ops.one(p, RunArgument(ops, t, "data"), rest)
  {
    hide RunArgument;
    IdsApart();
    var t := CallTerm(p, args);
    assert "arguments" != "process_id";
    assert t.fields["arguments"] == TObj(args) && t.fields["process_id"] == TStr(ProcessName(p));
  }

  lemma OtherArguments(dag: Dag, scope: Scope, n: nat, node: Node)
    requires Known(node.process)
    ensures ArgTerms(dag, scope, n, node) - CubeNames(node.process)
         == Parameters(scope, n, node, CubeNames(node.process))
  {
    var p := node.process;
    forall k | k in FedNames(dag.edges, node.id, Inputs(p))
      ensures k in CubeNames(p)
    {
      FedNamed(dag, node, k);
      OnlyCubesNamed(p, k);
    }
    forall k | k !in CubeNames(p)
      ensures FedSource(dag, node, k).None?
    {
      if FedSource(dag, node, k).Some? { OnlyCubesNamed(p, k); }
    }
    hide FedNames, FedSource, CubeNames, DagTerm;
    assert (ArgTerms(dag, scope, n, node) - CubeNames(p)).Keys == Parameters(scope, n, node, CubeNames(p)).Keys;
  }

  lemma {:induction false} ArgumentRuns<V>(ops: Operations<V>, dag: Dag, scope: Scope, n: nat, node: Node,
                                           port: Port, name: string)
    requires WellFormed(dag) && Known(node.process) && PortNamed(Inputs(node.process), name) == Some(port)
    ensures IsCall(NodeValue(dag, scope, n, node))
    ensures RunArgument(ops, NodeValue(dag, scope, n, node), name) == Given(ops, dag, scope, n, node, port, name)
    decreases n, 1
  {
    hide WellFormed, DagTerm, SourceOf, Run, MadeAt, PortNamed, Resolve, ArgTerms;
    var args := ArgTerms(dag, scope, n, node);
    RunDispatches(ops, node.process, args);
    assert NodeValue(dag, scope, n, node).fields["arguments"] == TObj(args);
    FedNamed(dag, node, name);
    ArgumentAt(dag, scope, n, node, name);
    var source := SourceOf(dag.edges, node.id, port);
    assert FedSource(dag, node, name) == source;
    if source.Some? { StepRuns(ops, dag, scope, n, source.value); }
  }

  lemma ArgumentAt(dag: Dag, scope: Scope, n: nat, node: Node, name: string)
    ensures name in ArgTerms(dag, scope, n, node) <==>
      name in node.params || name in FedNames(dag.edges, node.id, Inputs(node.process))
    ensures name in ArgTerms(dag, scope, n, node) ==>
      ArgTerms(dag, scope, n, node)[name] == ArgTerm(dag, scope, n, node, name)
  {
    hide FedNames, ArgTerm;
  }

  /** Running the term of a step, by ids and names, is running it along the port wiring. */
  lemma {:induction false} StepRuns<V>(ops: Operations<V>, dag: Dag, scope: Scope, n: nat, id: Id)
    requires WellFormed(dag)
    ensures Run(ops, DagTerm(dag, scope, n, id)) == MadeAt(ops, dag, scope, n, id)
    decreases n, 0
  {
    hide NodeValue, Made, WellFormed;
    if n > 0 && NodeOf(dag.nodes, id).Some? {
      NodeKnown(dag, id);
      NodeRuns(ops, dag, scope, n - 1, NodeOf(dag.nodes, id).value);
    }
  }

  lemma NodeKnown(dag: Dag, id: Id)
    requires WellFormed(dag) && NodeOf(dag.nodes, id).Some?
    ensures Known(NodeOf(dag.nodes, id).value.process)
  {
    NodeOfIn(dag.nodes, id);
  }

  lemma {:induction false} NodeRuns<V>(ops: Operations<V>, dag: Dag, scope: Scope, n: nat, node: Node)
    requires WellFormed(dag) && Known(node.process)
    ensures Run(ops, NodeValue(dag, scope, n, node)) == Made(ops, dag, scope, n, node)
    decreases n, 2
  {
    hide WellFormed, Run, RunArgument, Given, Parameters, ArgTerms, PortNamed, CallTerm;
    var p := node.process;
    RunDispatches(ops, p, ArgTerms(dag, scope, n, node));
    OtherArguments(dag, scope, n, node);
    WrittenNames(p);
    if p.MergeCubes? {
      ArgumentRuns(ops, dag, scope, n, node, Cube1, "cube1");
      ArgumentRuns(ops, dag, scope, n, node, Cube2, "cube2");
    } else if p.LinearScaleRange? {
      ArgumentRuns(ops, dag, scope, n, node, X, "x");
    } else if p.LoadCollection? {
      assert ArgTerms(dag, scope, n, node) - {} == ArgTerms(dag, scope, n, node);
    } else {
      ArgumentRuns(ops, dag, scope, n, node, Data, "data");
    }
  }

  /** Running any entry of the lowered graph, by the process ids and argument names written in
      it, gives the step's output along the port wiring; each cube reaches the argument that
      its port is named after. */
  lemma LoweredRuns<V>(ops: Operations<V>, dag: Dag, graph: Scope, n: nat, id: Id)
    requires WellFormed(dag) && Lowers(dag, graph) && id in graph
    requires forall node :: node in dag.nodes ==> ParamsLowerable(node)
    ensures Run(ops, Resolve(graph, n, Ref(id))) == MadeAt(ops, dag, graph, n, id)
  {
    hide WellFormed, Lowers, Run, MadeAt, ParamsLowerable, Resolve, DagTerm;
    LowerPreserves(dag, graph, n, id);
    StepRuns(ops, dag, graph, n, id);
  }

  /** The lowered graph of an acyclic canvas has one result, and running it gives what the
      output makes of the cube it is fed. */
  lemma LoweredGraphRuns<V>(ops: Operations<V>, dag: Dag, graph: Scope, n: nat, scope: Scope)
    requires WellFormed(dag) && Acyclic(dag.edges) && Lowers(dag, graph) && OutputNode(dag.nodes).Some?
    requires forall node :: node in dag.nodes ==> ParamsLowerable(node)
    ensures exists t ::
      Resolve(scope, n, Child(graph, map[])) == TFun({t}) &&
      Run(ops, t) == ops.one(SaveResult, Given(ops, dag, graph, n, OutputNode(dag.nodes).value, Data, "data"),
                             Parameters(graph, n, OutputNode(dag.nodes).value, {"data"}))
  {
    hide WellFormed, Acyclic, Lowers, ParamsLowerable, Run, Given, Parameters, Resolve, NodeValue, OutputNode;
    var out := OutputNode(dag.nodes).value;
    OutputNodeIn(dag.nodes);
    LoweredGraphTerm(dag, graph, n, scope);
    NodeRuns(ops, dag, graph, n, out);
    assert Resolve(scope, n, Child(graph, map[])) == TFun({NodeValue(dag, graph, n, out)});
  }

  // ----- The table of cube ports -----

  datatype CubePorts = CubePorts(inputs: seq<string>, output: bool)

  /** The cube arguments of each process by its id, and whether it gives a cube: the processes
      admitted at top level, and no other. */
  function PortsOf(id: string): Option<CubePorts> {
    if id == "load_collection" then Some(CubePorts([], true))
    else if id == "filter_temporal" then Some(CubePorts(["data"], true))
    else if id == "ndvi" then Some(CubePorts(["data"], true))
    else if id == "reduce_dimension" then Some(CubePorts(["data"], true))
    else if id == "run_udf" then Some(CubePorts(["data"], true))
    else if id == "linear_scale_range" then Some(CubePorts(["x"], true))
    else if id == "merge_cubes" then Some(CubePorts(["cube1", "cube2"], true))
    else if id == "save_result" then Some(CubePorts(["data"], false))
    else None
  }

  function PortNames(ports: seq<Port>): seq<string> {
    seq(|ports|, i requires 0 <= i < |ports| => PortName(ports[i]))
  }

  /** The graph's ports are the table's, process by process; a process it does not know has
      none. */
  lemma PortTable(p: Process)
    ensures Known(p) ==> PortsOf(ProcessName(p)) == Some(CubePorts(PortNames(Inputs(p)), HasOutput(p)))
    ensures !Known(p) ==> Inputs(p) == [] && !HasOutput(p)
  {
    IdsApart();
    if p.MergeCubes? {
      assert PortNames([Cube1, Cube2]) == ["cube1", "cube2"];
    } else if p.LoadCollection? {
      assert PortNames([]) == [];
    } else if p.LinearScaleRange? {
      assert PortNames([X]) == ["x"];
    } else {
      assert PortNames([Data]) == ["data"];
    }
  }
}
