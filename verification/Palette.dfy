/** The palette: what may be spliced onto an edge of the graph, and its agreement with the
    linear chain's insertion rule. */
module Palette {
  import opened Wrappers
  import opened Stages
  import opened Graph
  import opened Typing
  import opened Edits
  import opened Branching
  import opened Discipline
  import Panel

  const DAG_PROCESSES: seq<Process> :=
    [FilterTemporal, Ndvi, ReduceDimension, RunUdf, LinearScaleRange, MergeCubes]

  function EdgeIndex(es: seq<Edge>, e: Edge): (i: Option<nat>)
    ensures i.Some? ==> i.value < |es| && es[i.value] == e
    ensures i.None? ==> e !in es
  {
    if es == [] then None
    else if es[0] == e then Some(0)
    else
      match EdgeIndex(es[1..], e)
      case None => None
      case Some(i) => Some(i + 1)
  }

  /** The graph with a step spliced onto `e`, in the edge's own place. */
  function Splice(dag: Dag, e: Edge, node: Node): Option<Dag> {
    var i := EdgeIndex(dag.edges, e);
    if i.None? || Inputs(node.process) == [] then None
    else Some(Dag(dag.nodes + [node],
                  dag.edges[..i.value] + [IntoStep(e, node.id, Inputs(node.process)[0]), OutOfStep(e, node.id)]
                  + dag.edges[i.value + 1..]))
  }

  ghost predicate Insertable(dag: Dag, e: Edge, served: Served, id: Id, p: Process) {
    Offered(served, p) && !p.MergeCubes? &&
    var spliced := Splice(dag, e, Node(id, p, map[]));
    spliced.Some? && AllTyped(spliced.value)
  }

  ghost function InsertableAmong(dag: Dag, e: Edge, served: Served, id: Id, ps: seq<Process>): seq<Process> {
    if ps == [] then []
    else (if Insertable(dag, e, served, id, ps[0]) then [ps[0]] else []) + InsertableAmong(dag, e, served, id, ps[1..])
  }

  lemma AmongFrom(dag: Dag, e: Edge, served: Served, id: Id, ps: seq<Process>, i: nat)
    requires i < |ps|
    ensures InsertableAmong(dag, e, served, id, ps[i..])
         == (if Insertable(dag, e, served, id, ps[i]) then [ps[i]] else [])
            + InsertableAmong(dag, e, served, id, ps[i + 1..])
  {
    hide Insertable;
    assert ps[i..][1..] == ps[i + 1..] && ps[i..][0] == ps[i];
  }

  lemma AmongNone(dag: Dag, e: Edge, served: Served, id: Id, ps: seq<Process>)
    ensures InsertableAmong(dag, e, served, id, ps[|ps|..]) == [] && ps[0..] == ps
  {
  }

  /** Which palette processes could be spliced onto the edge with the graph still typing. */
  method InsertableOn(dag: Dag, e: Edge, served: Served, id: Id) returns (fits: seq<Process>)
    ensures fits == InsertableAmong(dag, e, served, id, DAG_PROCESSES)
  {
    hide Insertable, InsertableAmong, Offered;
    fits := [];
    var ps := DAG_PROCESSES;
    AmongNone(dag, e, served, id, ps);
    for i := 0 to |ps|
      invariant fits + InsertableAmong(dag, e, served, id, ps[i..]) == InsertableAmong(dag, e, served, id, ps)
    {
      AmongFrom(dag, e, served, id, ps, i);
      var ok := Fits(dag, e, served, id, ps[i]);
      if ok {
        fits := fits + [ps[i]];
      }
    }
  }

  method Fits(dag: Dag, e: Edge, served: Served, id: Id, p: Process) returns (ok: bool)
    ensures ok <==> Insertable(dag, e, served, id, p)
  {
    hide AllTyped, Splice;
    ok := false;
    if Offered(served, p) && !p.MergeCubes? {
      var spliced := Splice(dag, e, Node(id, p, map[]));
      if spliced.Some? {
        ok := WellTyped(spliced.value);
      }
    }
  }

  /** The menu of an edge: what can be spliced, and a join where the cube is gray and
      unscaled and the target is not itself a join. */
  method InsertCandidates(dag: Dag, e: Edge, served: Served, id: Id) returns (fits: seq<Process>)
    ensures var splices := InsertableAmong(dag, e, served, id, DAG_PROCESSES);
            var target := NodeOf(dag.nodes, e.to.node);
            fits == if MergeCubes in served.processes && Typ(dag, e.from.node) == Some(Stage(Gray, false)) &&
                       !(target.Some? && target.value.process.MergeCubes?)
                    then splices + [MergeCubes] else splices
  {
    hide Typ, InsertableAmong;
    var typer := new Typer(dag);
    fits := InsertableOn(dag, e, served, id);
    var target := NodeOf(dag.nodes, e.to.node);
    var from := typer.TypeOf(e.from.node);
    if MergeCubes in served.processes && from.Some? && from.value.kind.Gray? && !from.value.scaled &&
       !(target.Some? && target.value.process.MergeCubes?) {
      fits := fits + [MergeCubes];
    }
  }

  // ----- Straight pipelines -----

  /** A step of a straight pipeline between the load and the output. */
  predicate Middle(p: Process) {
    p.FilterTemporal? || Reducing(p) || p.LinearScaleRange?
  }

  /** The first input of a process that has one. */
  function FirstInput(p: Process): Port {
    if Inputs(p) == [] then Out else Inputs(p)[0]
  }

  function Link(chain: seq<Node>, i: nat): Edge
    requires i + 1 < |chain|
  {
    Edge(PortRef(chain[i].id, Out), PortRef(chain[i + 1].id, FirstInput(chain[i + 1].process)))
  }

  /** A load, middle steps, and an output. */
  ghost predicate IsChain(chain: seq<Node>) {
    |chain| >= 2 && UniqueIds(chain) && chain[0].process.LoadCollection? && chain[|chain| - 1].process.SaveResult? &&
    forall i :: 0 < i < |chain| - 1 ==> Middle(chain[i].process)
  }

  /** The graph is the chain's pipeline: its nodes, each feeding the next. */
  ghost predicate Straight(dag: Dag, chain: seq<Node>) {
    IsChain(chain) && UniqueIds(dag.nodes) && SingleFed(dag.edges) && SameNodes(dag.nodes, chain) &&
    HasLinks(dag.edges, chain) && OnlyLinks(dag.edges, chain)
  }

  ghost predicate SameNodes(nodes: seq<Node>, chain: seq<Node>) {
    forall n :: n in nodes <==> n in chain
  }

  ghost predicate HasLinks(es: seq<Edge>, chain: seq<Node>) {
    forall i :: 0 <= i < |chain| - 1 ==> Link(chain, i) in es
  }

  ghost predicate OnlyLinks(es: seq<Edge>, chain: seq<Node>) {
    forall e :: e in es ==> exists i :: 0 <= i < |chain| - 1 && e == Link(chain, i)
  }

  /** What a step of the pipeline makes of a stage: a date filter and the output pass it on. */
  function Through(stage: Option<Stage>, p: Process): Option<Stage> {
    if stage.None? then None
    else if p.FilterTemporal? || p.SaveResult? then stage
    else Transition(stage.value, p)
  }

  /** The stage after the first `i` steps that follow the load. */
  function StageAfter(chain: seq<Node>, i: nat): Option<Stage>
    requires i < |chain|
  {
    if i == 0 then Some(LOAD_STAGE) else Through(StageAfter(chain, i - 1), chain[i].process)
  }

  lemma {:induction false} StraightStage(dag: Dag, chain: seq<Node>, i: nat)
    requires Straight(dag, chain) && i < |chain|
    ensures NodeOf(dag.nodes, chain[i].id) == Some(chain[i])
    ensures Typ(dag, chain[i].id) == StageAfter(chain, i)
  {
    hide Typ, SourceOf, NodeOf, Straight, Through, Apply;
    StraightNode(dag, chain, i);
    if i == 0 {
      LoadRule(dag, chain[0].id);
    } else {
      StraightStage(dag, chain, i - 1);
      StraightFed(dag, chain, i);
      OneInputRule(dag, chain[i].id, FirstInput(chain[i].process));
    }
  }

  lemma StraightNode(dag: Dag, chain: seq<Node>, i: nat)
    requires Straight(dag, chain) && i < |chain|
    ensures NodeOf(dag.nodes, chain[i].id) == Some(chain[i])
    ensures i == 0 ==> chain[i].process.LoadCollection?
  {
    assert chain[i] in chain;
    NodeOfUnique(dag.nodes, chain[i]);
  }

  /** A later step has one input, fed by the step before. */
  lemma StraightFed(dag: Dag, chain: seq<Node>, i: nat)
    requires Straight(dag, chain) && 0 < i < |chain|
    ensures var port := FirstInput(chain[i].process);
            Inputs(chain[i].process) == [port] && SourceOf(dag.edges, chain[i].id, port) == Some(chain[i - 1].id)
    ensures forall s: Option<Stage> :: Apply(chain[i].process, [s]) == Through(s, chain[i].process)
  {
    hide Apply, Through, SourceOf;
    assert Link(chain, i - 1) in dag.edges;
    FedBy(dag, Link(chain, i - 1));
    StepInput(chain, i);
  }

  lemma StepInput(chain: seq<Node>, i: nat)
    requires IsChain(chain) && 0 < i < |chain|
    ensures |Inputs(chain[i].process)| == 1
    ensures forall s: Option<Stage> :: Apply(chain[i].process, [s]) == Through(s, chain[i].process)
  {
  }

  /** The pipeline types exactly when its chain runs to the end. */
  lemma StraightTypes(dag: Dag, chain: seq<Node>)
    requires Straight(dag, chain)
    ensures AllTyped(dag) <==> StageAfter(chain, |chain| - 1).Some?
  {
    forall i | 0 <= i < |chain|
      ensures Typ(dag, chain[i].id) == StageAfter(chain, i)
      ensures StageAfter(chain, |chain| - 1).Some? ==> StageAfter(chain, i).Some?
    {
      StraightStage(dag, chain, i);
      StagePrefix(chain, i, |chain| - 1);
    }
    hide Typ, StageAfter;
    assert chain[|chain| - 1] in dag.nodes;
  }

  lemma {:induction false} StagePrefix(chain: seq<Node>, i: nat, j: nat)
    requires i <= j < |chain|
    ensures StageAfter(chain, j).Some? ==> StageAfter(chain, i).Some?
    decreases j
  {
    if i < j {
      StagePrefix(chain, i, j - 1);
    }
  }

  // ----- The chain with date filters erased -----

  /** The transforming steps among the first `i` after the load. */
  function Erased(chain: seq<Node>, i: nat): seq<Process>
    requires i < |chain|
  {
    if i == 0 then []
    else if chain[i].process.FilterTemporal? || chain[i].process.SaveResult? then Erased(chain, i - 1)
    else Erased(chain, i - 1) + [chain[i].process]
  }

  lemma {:induction false} ErasedStage(chain: seq<Node>, i: nat)
    requires i < |chain|
    ensures StageAfter(chain, i) == RunChain(LOAD_STAGE, Erased(chain, i))
  {
    if i > 0 {
      ErasedStage(chain, i - 1);
      RunChainSnoc(LOAD_STAGE, Erased(chain, i - 1), chain[i].process);
    }
  }

  // ----- Splicing a straight pipeline -----

  /** The chain with a step after its first `g + 1`. */
  function Extended(chain: seq<Node>, g: nat, node: Node): (longer: seq<Node>)
    requires g + 1 < |chain|
    ensures |longer| == |chain| + 1
  {
    chain[..g + 1] + [node] + chain[g + 1..]
  }

  lemma ExtendedIds(chain: seq<Node>, g: nat, node: Node)
    requires UniqueIds(chain) && g + 1 < |chain| && NodeOf(chain, node.id).None?
    ensures UniqueIds(Extended(chain, g, node))
    ensures forall n :: n in Extended(chain, g, node) <==> n in chain || n == node
  {
    assert chain[..g + 1] + chain[g + 1..] == chain;
    Panel.InsertCard(chain[..g + 1], node, chain[g + 1..]);
    hide UniqueIds, NodeOf;
  }

  lemma ExtendedChain(chain: seq<Node>, g: nat, node: Node)
    requires IsChain(chain) && g + 1 < |chain| && Middle(node.process) && NodeOf(chain, node.id).None?
    ensures IsChain(Extended(chain, g, node))
    ensures forall n :: n in Extended(chain, g, node) <==> n in chain || n == node
  {
    ExtendedIds(chain, g, node);
    ExtendedMiddle(chain, g, node);
    ExtendedAt(chain, g, node, 0);
    ExtendedAt(chain, g, node, |chain|);
    hide UniqueIds, NodeOf, Middle, Extended;
  }

  lemma ExtendedMiddle(chain: seq<Node>, g: nat, node: Node)
    requires g + 1 < |chain| && Middle(node.process)
    requires forall i :: 0 < i < |chain| - 1 ==> Middle(chain[i].process)
    ensures forall i :: 0 < i < |Extended(chain, g, node)| - 1 ==> Middle(Extended(chain, g, node)[i].process)
  {
    hide Middle, Extended;
    forall i | 0 < i < |Extended(chain, g, node)| - 1
      ensures Middle(Extended(chain, g, node)[i].process)
    {
      ExtendedAt(chain, g, node, i);
    }
  }

  lemma ExtendedAt(chain: seq<Node>, g: nat, node: Node, i: nat)
    requires g + 1 < |chain| && i <= |chain|
    ensures Extended(chain, g, node)[i] == if i <= g then chain[i] else if i == g + 1 then node else chain[i - 1]
  {
  }

  /** The place in the list of each edge but `e`, once `e` gives way to two. */
  lemma SplicedPlaces(es: seq<Edge>, i: nat, x: Edge, y: Edge)
    requires i < |es|
    ensures var spliced := es[..i] + [x, y] + es[i + 1..];
            |spliced| == |es| + 1 && spliced[i] == x && spliced[i + 1] == y &&
            (forall k :: 0 <= k < i ==> spliced[k] == es[k]) &&
            (forall k :: i + 2 <= k < |spliced| ==> spliced[k] == es[k - 1]) &&
            (forall k :: i < k < |es| ==> spliced[k + 1] == es[k])
  {
  }

  lemma SpliceParts(es: seq<Edge>, e: Edge, i: nat, x: Edge, y: Edge)
    requires SingleFed(es) && i < |es| && es[i] == e && y.to == e.to && x.to != e.to
    requires forall f :: f in es ==> f.to != x.to
    ensures SingleFed(es[..i] + [x, y] + es[i + 1..])
    ensures forall f :: f in es[..i] + [x, y] + es[i + 1..] <==> (f in es && f != e) || f == x || f == y
  {
    SplicedPlaces(es, i, x, y);
    SplicedSingleFed(es, i, x, y);
    var spliced := es[..i] + [x, y] + es[i + 1..];
    forall f | f in es && f != e
      ensures f in spliced
    {
      var k :| 0 <= k < |es| && es[k] == f;
      assert spliced[if k < i then k else k + 1] == f;
    }
    forall f | f in spliced && f != x && f != y
      ensures f in es && f != e
    {
      var k :| 0 <= k < |spliced| && spliced[k] == f;
      assert es[if k < i then k else k - 1] == f;
    }
  }

  lemma SplicedSingleFed(es: seq<Edge>, i: nat, x: Edge, y: Edge)
    requires SingleFed(es) && i < |es| && y.to == es[i].to && forall f :: f in es ==> f.to != x.to
    ensures SingleFed(es[..i] + [x, y] + es[i + 1..])
  {
    var spliced := es[..i] + [x, y] + es[i + 1..];
    SplicedPlaces(es, i, x, y);
    var at := (m: int) => if m < i then m else m - 1;
    forall m | 0 <= m < |spliced| && m != i
      ensures spliced[m].to == es[at(m)].to && es[at(m)] in es
    {
    }
    forall j, k | 0 <= j < k < |spliced|
      ensures spliced[j].to != spliced[k].to
    {
      if j != i && k != i { assert es[at(j)].to != es[at(k)].to; }
    }
  }

  lemma LinkApart(chain: seq<Node>, i: nat, g: nat)
    requires IsChain(chain) && i + 1 < |chain| && g + 1 < |chain| && i != g
    ensures Link(chain, i) != Link(chain, g)
  {
    if i < g {
      assert chain[i].id != chain[g].id;
    } else {
      assert chain[g].id != chain[i].id;
    }
  }

  /** The links of the longer chain: the old ones but the one spliced on, and two new. */
  lemma ExtendedLinks(chain: seq<Node>, g: nat, node: Node, i: nat)
    requires IsChain(chain) && g + 1 < |chain| && Middle(node.process) && i + 1 < |Extended(chain, g, node)|
    ensures var longer := Extended(chain, g, node);
            Link(longer, i) == if i < g then Link(chain, i)
                               else if i == g then IntoStep(Link(chain, g), node.id, FirstInput(node.process))
                               else if i == g + 1 then OutOfStep(Link(chain, g), node.id)
                               else Link(chain, i - 1)
  {
    hide UniqueIds, Extended, IsChain;
    ExtendedAt(chain, g, node, i);
    ExtendedAt(chain, g, node, i + 1);
  }

  lemma SpliceIs(dag: Dag, e: Edge, node: Node)
    requires e in dag.edges && Inputs(node.process) != []
    ensures var i := EdgeIndex(dag.edges, e);
            i.Some? && i.value < |dag.edges| && dag.edges[i.value] == e &&
            Splice(dag, e, node)
            == Some(Dag(dag.nodes + [node],
                        dag.edges[..i.value] + [IntoStep(e, node.id, Inputs(node.process)[0]), OutOfStep(e, node.id)]
                        + dag.edges[i.value + 1..]))
  {
  }

  /** Splicing takes the edge out and the step's two edges in, and feeds no port twice. */
  lemma SpliceMembers(dag: Dag, e: Edge, node: Node)
    requires e in dag.edges && Inputs(node.process) != [] && SingleFed(dag.edges) && Unwired(dag.edges, node.id)
    ensures Splice(dag, e, node).Some? &&
            var spliced := Splice(dag, e, node).value;
            SingleFed(spliced.edges) && spliced.nodes == dag.nodes + [node] &&
            forall f :: f in spliced.edges <==>
              (f in dag.edges && f != e) || f == IntoStep(e, node.id, Inputs(node.process)[0]) ||
              f == OutOfStep(e, node.id)
  {
    hide Splice, SingleFed, Inputs;
    SpliceIs(dag, e, node);
    var i := EdgeIndex(dag.edges, e).value;
    SpliceParts(dag.edges, e, i, IntoStep(e, node.id, Inputs(node.process)[0]), OutOfStep(e, node.id));
  }

  lemma SplicedEdges(dag: Dag, chain: seq<Node>, g: nat, node: Node)
    requires Straight(dag, chain) && g + 1 < |chain| && Middle(node.process) && NodeOf(dag.nodes, node.id).None?
    ensures var e := Link(chain, g);
            Splice(dag, e, node).Some? &&
            var spliced := Splice(dag, e, node).value;
            SingleFed(spliced.edges) && spliced.nodes == dag.nodes + [node] &&
            forall f :: f in spliced.edges <==>
              (f in dag.edges && f != e) ||
              f == IntoStep(e, node.id, FirstInput(node.process)) || f == OutOfStep(e, node.id)
  {
    StraightApart(dag, chain, node.id);
    var e := Link(chain, g);
    assert e in dag.edges && SingleFed(dag.edges);
    hide Straight, SingleFed, NodeOf, Splice, Link;
    SpliceMembers(dag, e, node);
  }

  lemma StraightApart(dag: Dag, chain: seq<Node>, id: Id)
    requires Straight(dag, chain) && NodeOf(dag.nodes, id).None?
    ensures forall e :: e in dag.edges ==> e.to.node != id && e.from.node != id
    ensures NodeOf(chain, id).None?
  {
    hide UniqueIds, SingleFed;
    forall e | e in dag.edges
      ensures e.to.node != id && e.from.node != id
    {
      var i :| 0 <= i < |chain| - 1 && e == Link(chain, i);
      assert chain[i] in dag.nodes && chain[i + 1] in dag.nodes;
    }
  }

  lemma SplicedNodes(dag: Dag, node: Node)
    requires UniqueIds(dag.nodes) && NodeOf(dag.nodes, node.id).None?
    ensures UniqueIds(dag.nodes + [node]) && forall n :: n in dag.nodes + [node] <==> n in dag.nodes || n == node
  {
  }

  /** Splicing a middle step onto a straight pipeline gives the longer pipeline. */
  lemma SplicedStraight(dag: Dag, chain: seq<Node>, g: nat, node: Node)
    requires Straight(dag, chain) && g + 1 < |chain| && Middle(node.process) && NodeOf(dag.nodes, node.id).None?
    ensures Splice(dag, Link(chain, g), node).Some?
    ensures Straight(Splice(dag, Link(chain, g), node).value, Extended(chain, g, node))
  {
    hide UniqueIds, SingleFed, NodeOf, IsChain, Extended, Splice, HasLinks, OnlyLinks, SameNodes, Link, Middle;
    SplicedEdges(dag, chain, g, node);
    StraightApart(dag, chain, node.id);
    ExtendedChain(chain, g, node);
    SplicedNodes(dag, node);
    SplicedSameNodes(dag, chain, g, node);
    SplicedLinks(dag, chain, g, node);
  }

  lemma SplicedSameNodes(dag: Dag, chain: seq<Node>, g: nat, node: Node)
    requires SameNodes(dag.nodes, chain) && g + 1 < |chain|
    requires forall n :: n in Extended(chain, g, node) <==> n in chain || n == node
    ensures SameNodes(dag.nodes + [node], Extended(chain, g, node))
  {
    hide Extended;
  }

  lemma SplicedLinks(dag: Dag, chain: seq<Node>, g: nat, node: Node)
    requires Straight(dag, chain) && g + 1 < |chain| && Middle(node.process) && NodeOf(dag.nodes, node.id).None?
    requires Splice(dag, Link(chain, g), node).Some?
    ensures HasLinks(Splice(dag, Link(chain, g), node).value.edges, Extended(chain, g, node))
    ensures OnlyLinks(Splice(dag, Link(chain, g), node).value.edges, Extended(chain, g, node))
  {
    hide Straight, NodeOf, Extended, Splice, Link, Middle;
    var longer, es := Extended(chain, g, node), Splice(dag, Link(chain, g), node).value.edges;
    forall i | 0 <= i < |longer| - 1
      ensures Link(longer, i) in es
    {
      LinkSpliced(dag, chain, g, node, i);
    }
    forall f | f in es
      ensures exists i :: 0 <= i < |longer| - 1 && f == Link(longer, i)
    {
      var i := SplicedLink(dag, chain, g, node, f);
    }
  }

  lemma LinkSpliced(dag: Dag, chain: seq<Node>, g: nat, node: Node, i: nat)
    requires Straight(dag, chain) && g + 1 < |chain| && Middle(node.process) && NodeOf(dag.nodes, node.id).None?
    requires i + 1 < |Extended(chain, g, node)|
    ensures Splice(dag, Link(chain, g), node).Some?
    ensures var longer := Extended(chain, g, node);
            Link(longer, i) in Splice(dag, Link(chain, g), node).value.edges
  {
    SplicedEdges(dag, chain, g, node);
    ExtendedLinks(chain, g, node, i);
    hide UniqueIds, SingleFed, NodeOf, Splice;
    if i < g {
      LinkApart(chain, i, g);
    } else if i > g + 1 {
      LinkApart(chain, i - 1, g);
    }
  }

  lemma SplicedLink(dag: Dag, chain: seq<Node>, g: nat, node: Node, f: Edge) returns (i: nat)
    requires Straight(dag, chain) && g + 1 < |chain| && Middle(node.process) && NodeOf(dag.nodes, node.id).None?
    requires Splice(dag, Link(chain, g), node).Some? && f in Splice(dag, Link(chain, g), node).value.edges
    ensures var longer := Extended(chain, g, node);
            i + 1 < |longer| && f == Link(longer, i)
  {
    SplicedEdges(dag, chain, g, node);
    i := WhichLink(dag, chain, g, node, f);
    hide Straight, NodeOf, Splice, Extended;
    ExtendedLinks(chain, g, node, i);
  }

  lemma WhichLink(dag: Dag, chain: seq<Node>, g: nat, node: Node, f: Edge) returns (i: nat)
    requires Straight(dag, chain) && g + 1 < |chain|
    requires (f in dag.edges && f != Link(chain, g)) ||
             f == IntoStep(Link(chain, g), node.id, FirstInput(node.process)) || f == OutOfStep(Link(chain, g), node.id)
    ensures i < |chain|
    ensures i < g ==> f == Link(chain, i)
    ensures i == g ==> f == IntoStep(Link(chain, g), node.id, FirstInput(node.process))
    ensures i == g + 1 ==> f == OutOfStep(Link(chain, g), node.id)
    ensures i > g + 1 ==> f == Link(chain, i - 1)
  {
    hide UniqueIds, SingleFed, Link, IsChain;
    if f in dag.edges && f != Link(chain, g) {
      var k :| 0 <= k < |chain| - 1 && f == Link(chain, k);
      i := if k < g then k else k + 1;
    } else if f == OutOfStep(Link(chain, g), node.id) {
      i := g + 1;
    } else {
      i := g;
    }
  }

  // ----- The two rules agree -----

  lemma {:induction false} ErasedSame(chain: seq<Node>, longer: seq<Node>, i: nat)
    requires i < |chain| && i < |longer| && forall k :: 0 <= k <= i ==> longer[k] == chain[k]
    ensures Erased(longer, i) == Erased(chain, i)
  {
    if i > 0 {
      ErasedSame(chain, longer, i - 1);
    }
  }

  /** A transforming step in the place of a gap; a date filter leaves none. */
  function WithAt(ps: seq<Process>, gap: nat, p: Process): seq<Process>
    requires gap <= |ps|
  {
    ps[..gap] + (if p.FilterTemporal? then [] else [p]) + ps[gap..]
  }

  lemma WithAtSnoc(ps: seq<Process>, gap: nat, p: Process, q: Process)
    requires gap <= |ps|
    ensures WithAt(ps + [q], gap, p) == WithAt(ps, gap, p) + [q]
  {
    assert (ps + [q])[..gap] == ps[..gap] && (ps + [q])[gap..] == ps[gap..] + [q];
  }

  lemma ErasedStep(chain: seq<Node>, i: nat)
    requires 0 < i < |chain|
    ensures var p := chain[i].process;
            Erased(chain, i) == if p.FilterTemporal? || p.SaveResult? then Erased(chain, i - 1)
                                else Erased(chain, i - 1) + [p]
  {
  }

  /** The steps erased to: the new one stands where the gap was, unless it is a date filter. */
  lemma {:induction false} ErasedExtended(chain: seq<Node>, g: nat, node: Node, i: nat)
    requires g + 1 < |chain| && g <= i < |chain| && !node.process.SaveResult?
    ensures |Erased(chain, g)| <= |Erased(chain, i)|
    ensures Erased(Extended(chain, g, node), i + 1) == WithAt(Erased(chain, i), |Erased(chain, g)|, node.process)
    decreases i
  {
    hide Erased, Extended, WithAt;
    var longer, gap := Extended(chain, g, node), |Erased(chain, g)|;
    ExtendedAt(chain, g, node, i + 1);
    ErasedStep(longer, i + 1);
    if i == g {
      ErasedKept(chain, g, node);
    } else {
      ErasedExtended(chain, g, node, i - 1);
      ErasedStep(chain, i);
      WithAtSnoc(Erased(chain, i - 1), gap, node.process, chain[i].process);
    }
  }

  lemma ErasedKept(chain: seq<Node>, g: nat, node: Node)
    requires g + 1 < |chain|
    ensures Erased(Extended(chain, g, node), g) == Erased(chain, g)
    ensures WithAt(Erased(chain, g), |Erased(chain, g)|, node.process)
         == Erased(chain, g) + if node.process.FilterTemporal? then [] else [node.process]
  {
    hide Erased;
    ErasedSame(chain, Extended(chain, g, node), g);
    var ps := Erased(chain, g);
    assert ps[..|ps|] == ps && ps[|ps|..] == [];
  }

  lemma {:induction false} ErasedPrefix(chain: seq<Node>, g: nat, i: nat)
    requires g <= i < |chain|
    ensures |Erased(chain, g)| <= |Erased(chain, i)|
  {
    if g < i {
      ErasedPrefix(chain, g, i - 1);
    }
  }

  lemma ChainLength(dag: Dag, chain: seq<Node>)
    requires Straight(dag, chain)
    ensures |chain| >= 2
  {
  }

  /** A pipeline types exactly when its chain without date filters runs to the end. */
  lemma StraightRuns(dag: Dag, chain: seq<Node>)
    requires Straight(dag, chain)
    ensures AllTyped(dag) <==> RunChain(LOAD_STAGE, Erased(chain, |chain| - 1)).Some?
  {
    hide *;
    ChainLength(dag, chain);
    StraightTypes(dag, chain);
    ErasedStage(chain, |chain| - 1);
  }

  /** A transforming step fits on the pipeline's edge exactly when the chain admits it at
      the gap; a date filter wherever the pipeline types already. */
  lemma InsertableMatches(dag: Dag, chain: seq<Node>, g: nat, served: Served, id: Id, p: Process)
    requires Straight(dag, chain) && g + 1 < |chain| && NodeOf(dag.nodes, id).None? && Middle(p)
    requires |Erased(chain, g)| <= |Erased(chain, |chain| - 1)|
    ensures Insertable(dag, Link(chain, g), served, id, p) <==>
      Offered(served, p) &&
      if p.FilterTemporal? then AllTyped(dag) else CanInsertAt(Erased(chain, |chain| - 1), |Erased(chain, g)|, p)
  {
    hide *;
    NotAJoin(p);
    var node := Node(id, p, map[]);
    SplicedStraight(dag, chain, g, node);
    var spliced := Splice(dag, Link(chain, g), node).value;
    InsertableMeans(dag, Link(chain, g), served, id, p);
    StraightRuns(spliced, Extended(chain, g, node));
    StraightRuns(dag, chain);
    ErasedExtended(chain, g, node, |chain| - 1);
    var all, gap := Erased(chain, |chain| - 1), |Erased(chain, g)|;
    WithAtMeans(all, gap, p);
    CanInsertMeans(all, gap, p);
  }

  lemma WithAtMeans(ps: seq<Process>, gap: nat, p: Process)
    requires gap <= |ps|
    ensures WithAt(ps, gap, p) == if p.FilterTemporal? then ps else ps[..gap] + [p] + ps[gap..]
  {
    assert ps[..gap] + [] + ps[gap..] == ps;
  }

  lemma NotAJoin(p: Process)
    requires Middle(p)
    ensures !p.MergeCubes? && !p.SaveResult?
  {
  }

  lemma InsertableMeans(dag: Dag, e: Edge, served: Served, id: Id, p: Process)
    requires !p.MergeCubes? && Splice(dag, e, Node(id, p, map[])).Some?
    ensures Insertable(dag, e, served, id, p) <==>
      Offered(served, p) && AllTyped(Splice(dag, e, Node(id, p, map[])).value)
  {
    hide AllTyped, Splice, Offered;
  }

  lemma CanInsertMeans(all: seq<Process>, gap: nat, p: Process)
    requires gap <= |all|
    ensures CanInsertAt(all, gap, p) <==> RunChain(LOAD_STAGE, all[..gap] + [p] + all[gap..]).Some?
  {
  }

  /** On a straight pipeline the edge's palette is the chain's insertion rule at the gap,
      date filters aside: those are offered first, wherever the pipeline already types. */
  lemma PaletteAgrees(dag: Dag, chain: seq<Node>, g: nat, served: Served, id: Id)
    requires Straight(dag, chain) && g + 1 < |chain| && NodeOf(dag.nodes, id).None?
    ensures |Erased(chain, g)| <= |Erased(chain, |chain| - 1)|
    ensures InsertableAmong(dag, Link(chain, g), served, id, DAG_PROCESSES)
         == (if Offered(served, FilterTemporal) && AllTyped(dag) then [FilterTemporal] else [])
            + InsertableAt(Erased(chain, |chain| - 1), |Erased(chain, g)|, served)
  {
    hide *;
    ErasedPrefix(chain, g, |chain| - 1);
    PaletteParts(Erased(chain, |chain| - 1), |Erased(chain, g)|, served);
    var e := Link(chain, g);
    InsertableMatches(dag, chain, g, served, id, FilterTemporal);
    AmongMatches(dag, chain, g, served, id, MIDDLE_PROCESSES);
    AmongAppend(dag, e, served, id, MIDDLE_PROCESSES, [MergeCubes]);
    AmongAppend(dag, e, served, id, [FilterTemporal], MIDDLE_PROCESSES + [MergeCubes]);
    OneAmong(dag, e, served, id, MergeCubes);
    OneAmong(dag, e, served, id, FilterTemporal);
    NoJoinSpliced(dag, e, served, id);
  }

  lemma PaletteParts(all: seq<Process>, gap: nat, served: Served)
    requires gap <= |all|
    ensures DAG_PROCESSES == [FilterTemporal] + (MIDDLE_PROCESSES + [MergeCubes])
    ensures Middle(FilterTemporal) && forall p :: p in MIDDLE_PROCESSES ==> Middle(p) && !p.FilterTemporal?
    ensures InsertableAt(all, gap, served) == AdmittedAt(all, gap, served, MIDDLE_PROCESSES)
  {
  }

  lemma OneAmong(dag: Dag, e: Edge, served: Served, id: Id, p: Process)
    ensures InsertableAmong(dag, e, served, id, [p]) == if Insertable(dag, e, served, id, p) then [p] else []
  {
    hide Insertable;
    assert [p][1..] == [] && InsertableAmong(dag, e, served, id, []) == [];
  }

  lemma NoJoinSpliced(dag: Dag, e: Edge, served: Served, id: Id)
    ensures !Insertable(dag, e, served, id, MergeCubes)
  {
  }

  lemma {:induction false} AmongAppend(dag: Dag, e: Edge, served: Served, id: Id, ps: seq<Process>, qs: seq<Process>)
    ensures InsertableAmong(dag, e, served, id, ps + qs)
         == InsertableAmong(dag, e, served, id, ps) + InsertableAmong(dag, e, served, id, qs)
  {
    hide Insertable;
    if ps == [] {
      assert ps + qs == qs;
    } else {
      assert (ps + qs)[1..] == ps[1..] + qs;
      AmongAppend(dag, e, served, id, ps[1..], qs);
    }
  }

  lemma {:induction false} AmongMatches(dag: Dag, chain: seq<Node>, g: nat, served: Served, id: Id, ps: seq<Process>)
    requires Straight(dag, chain) && g + 1 < |chain| && NodeOf(dag.nodes, id).None?
    requires |Erased(chain, g)| <= |Erased(chain, |chain| - 1)|
    requires forall p :: p in ps ==> Middle(p) && !p.FilterTemporal?
    ensures InsertableAmong(dag, Link(chain, g), served, id, ps)
         == AdmittedAt(Erased(chain, |chain| - 1), |Erased(chain, g)|, served, ps)
  {
    if ps != [] {
      AmongMatches(dag, chain, g, served, id, ps[1..]);
      InsertableMatches(dag, chain, g, served, id, ps[0]);
      hide Insertable, CanInsertAt, Offered, Straight, NodeOf, Erased;
    }
  }
}
