/** The typed-port graph of web/src/authoring-dag.ts. */
module Graph {
  import opened Wrappers
  import opened Stages
  import opened Json

  type Id = string

  /** Port names. `Named` is any name that is neither `out` nor an input of a process. */
  datatype Port = Data | X | Cube1 | Cube2 | Out | Named(name: string)

  /** The argument a port is lowered to. */
  function PortName(port: Port): string {
    match port
    case Data => "data"
    case X => "x"
    case Cube1 => "cube1"
    case Cube2 => "cube2"
    case Out => "out"
    case Named(name) => name
  }

  datatype Node = Node(id: Id, process: Process, params: map<string, Json>)

  datatype PortRef = PortRef(node: Id, port: Port)

  datatype Edge = Edge(from: PortRef, to: PortRef)

  datatype Dag = Dag(nodes: seq<Node>, edges: seq<Edge>)

  /** Whether the process is one the graph admits at top level. */
  predicate Known(p: Process) {
    !p.Other?
  }

  /** The cube inputs of a process, in port order. */
  function Inputs(p: Process): seq<Port> {
    match p
    case LoadCollection => []
    case LinearScaleRange => [X]
    case MergeCubes => [Cube1, Cube2]
    case Other(_) => []
    case _ => [Data]
  }

  /** The first listed input of a join that is not `port`. */
  function OtherPort(port: Port): Port {
    if port == Cube1 then Cube2 else Cube1
  }

  /** Whether the process has an output to connect from. */
  predicate HasOutput(p: Process) {
    Known(p) && !p.SaveResult?
  }

  /** The stage a process produces from its inputs, in port order; `None` where the
      compiler would refuse. */
  function Apply(p: Process, inputs: seq<Option<Stage>>): Option<Stage> {
    if None in inputs then None
    else
      match p
      case LoadCollection => Some(LOAD_STAGE)
      case FilterTemporal => if inputs == [] then None else inputs[0]
      case MergeCubes =>
        if |inputs| < 2 then None
        else if inputs[0].value != Stage(Gray, false) || inputs[1].value != Stage(Gray, false) then None
        else Some(Stage(Gray, false))
      case SaveResult => if inputs == [] then None else inputs[0]
      case _ => if inputs == [] then None else Transition(inputs[0].value, p)
  }

  /** The first edge into `port` of `node`. */
  function Feeding(edges: seq<Edge>, node: Id, port: Port): (r: Option<Edge>)
    ensures r.Some? ==> r.value.to == PortRef(node, port)
    ensures r.None? ==> forall e :: e in edges ==> e.to != PortRef(node, port)
  {
    if edges == [] then None
    else if edges[0].to == PortRef(node, port) then Some(edges[0])
    else Feeding(edges[1..], node, port)
  }

  /** The first node with the id. */
  function NodeOf(nodes: seq<Node>, id: Id): (r: Option<Node>)
    ensures r.Some? ==> r.value.id == id
    ensures r.None? <==> forall n :: n in nodes ==> n.id != id
  {
    if nodes == [] then None
    else if nodes[0].id == id then Some(nodes[0])
    else NodeOf(nodes[1..], id)
  }

  lemma {:induction false} FeedingIn(edges: seq<Edge>, node: Id, port: Port)
    requires Feeding(edges, node, port).Some?
    ensures Feeding(edges, node, port).value in edges
  {
    if edges[0].to != PortRef(node, port) {
      FeedingIn(edges[1..], node, port);
    }
  }

  lemma {:induction false} NodeOfIn(nodes: seq<Node>, id: Id)
    requires NodeOf(nodes, id).Some?
    ensures NodeOf(nodes, id).value in nodes
  {
    if nodes[0].id != id {
      NodeOfIn(nodes[1..], id);
    }
  }

  /** Whether every cube input of `id` is connected. */
  predicate AllInputsFed(dag: Dag, id: Id) {
    match NodeOf(dag.nodes, id)
    case None => true
    case Some(node) => forall port :: port in Inputs(node.process) ==> Feeding(dag.edges, id, port).Some?
  }

  // ----- Well-formed wiring -----

  predicate UniqueIds(nodes: seq<Node>) {
    forall i, j :: 0 <= i < j < |nodes| ==> nodes[i].id != nodes[j].id
  }

  /** Each input port is fed at most once. */
  predicate SingleFed(edges: seq<Edge>) {
    forall i, j :: 0 <= i < j < |edges| ==> edges[i].to != edges[j].to
  }

  /** Both ends of the edge are on the canvas, at an output and at a named input. */
  predicate EdgeFits(nodes: seq<Node>, e: Edge) {
    var from, to := NodeOf(nodes, e.from.node), NodeOf(nodes, e.to.node);
    from.Some? && to.Some? &&
    HasOutput(from.value.process) && e.to.port in Inputs(to.value.process)
  }

  /** The standing assumption on a graph: unique ids, known processes, edges from an
      output to a named input, and no port fed twice. */
  predicate WellFormed(dag: Dag) {
    UniqueIds(dag.nodes) &&
    (forall n :: n in dag.nodes ==> Known(n.process)) &&
    (forall e :: e in dag.edges ==> EdgeFits(dag.nodes, e)) &&
    SingleFed(dag.edges)
  }

  lemma {:induction false} FeedingUnique(edges: seq<Edge>, e: Edge)
    requires SingleFed(edges) && e in edges
    ensures Feeding(edges, e.to.node, e.to.port) == Some(e)
  {
    if edges[0] != e {
      FeedingUnique(edges[1..], e);
    }
  }

  lemma {:induction false} FeedingSnoc(edges: seq<Edge>, e: Edge, node: Id, port: Port)
    ensures Feeding(edges + [e], node, port)
         == if Feeding(edges, node, port).Some? then Feeding(edges, node, port)
            else if e.to == PortRef(node, port) then Some(e) else None
  {
    if edges == [] {
      assert edges + [e] == [e];
    } else {
      assert (edges + [e])[1..] == edges[1..] + [e];
      FeedingSnoc(edges[1..], e, node, port);
    }
  }

  lemma {:induction false} NodeOfUnique(nodes: seq<Node>, n: Node)
    requires UniqueIds(nodes) && n in nodes
    ensures NodeOf(nodes, n.id) == Some(n)
  {
    if nodes[0] != n {
      NodeOfUnique(nodes[1..], n);
    }
  }

  lemma {:induction false} NodeOfSnoc(nodes: seq<Node>, n: Node, id: Id)
    ensures NodeOf(nodes + [n], id)
         == if NodeOf(nodes, id).Some? then NodeOf(nodes, id) else if n.id == id then Some(n) else None
  {
    if nodes == [] {
      assert nodes + [n] == [n];
    } else {
      assert (nodes + [n])[1..] == nodes[1..] + [n];
      NodeOfSnoc(nodes[1..], n, id);
    }
  }
}
