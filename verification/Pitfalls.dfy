/** Canvases on which the panel's edits leave a step without a type, or an edge without ends. */
module Pitfalls {
  import opened Wrappers
  import opened Stages
  import opened Graph
  import opened Paths
  import opened Typing
  import opened Edits
  import opened Branching
  import opened Discipline
  import opened Palette
  import opened Panel
  import opened Removal
  import opened Joining
  import opened Template
  import opened Menu

  function Feed(from: Id, to: Id): Edge {
    Edge(PortRef(from, Out), PortRef(to, Data))
  }

  // ----- The join offer does not ask for a loop -----

  /** load → ndvi → filter → save. */
  function FilteredPipeline(): Dag {
    Dag([Node("load", LoadCollection, map[]), Node("ndvi", Ndvi, map[]),
         Node("filter", FilterTemporal, map[]), Node("save", SaveResult, map[])],
        [Feed("load", "ndvi"), Feed("ndvi", "filter"), Feed("filter", "save")])
  }

  lemma PipelineNode(i: nat)
    requires i < 4
    ensures var n := FilteredPipeline().nodes[i]; NodeOf(FilteredPipeline().nodes, n.id) == Some(n)
  {
    var nodes := FilteredPipeline().nodes;
    assert nodes[1..][0] == nodes[1] && nodes[1..][1..][0] == nodes[2] && nodes[1..][1..][1..][0] == nodes[3];
    assert "load"[0] != "ndvi"[0] && "load"[0] != "filter"[0] && "load"[0] != "save"[0];
    assert "ndvi"[0] != "filter"[0] && "ndvi"[0] != "save"[0] && "filter"[0] != "save"[0];
    NodeOfUnique(nodes, nodes[i]);
  }

  lemma PipelineSource(i: nat)
    requires i < 3
    ensures var e := FilteredPipeline().edges[i];
            SourceOf(FilteredPipeline().edges, e.to.node, Data) == Some(e.from.node)
  {
    var es := FilteredPipeline().edges;
    assert "ndvi"[0] != "filter"[0] && "ndvi"[0] != "save"[0] && "filter"[0] != "save"[0];
    assert SingleFed(es);
    FeedingUnique(es, es[i]);
  }

  /** The offer does not ask whether the first step leads to the second: here it finds
      nothing to object to, and the join closes a loop. */
  lemma JoinOfferLoops(id: Id)
    requires NodeOf(FilteredPipeline().nodes, id).None?
    ensures JoinIssueOf(FilteredPipeline(), "ndvi", "filter") == None
    ensures Acyclic(FilteredPipeline().edges)
    ensures !Acyclic(JoinEdges(FilteredPipeline().edges, "ndvi", "filter", id, Cube1, Cube2))
  {
    hide FilteredPipeline, Typ, Acyclic, Reach, JoinEdges, EndIssue;
    PipelineTypes();
    PipelineEnds();
    PipelineAcyclic();
    PipelineApart(id);
    JoinCloses(FilteredPipeline().edges, "ndvi", "filter", id, Cube1, Cube2);
  }

  lemma PipelineEnds()
    ensures EndIssue(FilteredPipeline(), "ndvi").None? && EndIssue(FilteredPipeline(), "filter").None?
  {
    PipelineNode(1);
    PipelineNode(2);
    assert FilteredPipeline().nodes[1].id == "ndvi" && FilteredPipeline().nodes[2].id == "filter";
    PipelineTypes();
    hide Typ, NodeOf;
  }

  lemma PipelineTypes()
    ensures Typ(FilteredPipeline(), "ndvi") == Some(Stage(Gray, false))
    ensures Typ(FilteredPipeline(), "filter") == Some(Stage(Gray, false))
  {
    hide Typ, SourceOf, NodeOf;
    var dag := FilteredPipeline();
    PipelineNode(0);
    PipelineNode(1);
    PipelineNode(2);
    PipelineSource(0);
    PipelineSource(1);
    assert dag.nodes[0].id == "load" && dag.nodes[1].id == "ndvi" && dag.nodes[2].id == "filter";
    assert dag.edges[0] == Feed("load", "ndvi") && dag.edges[1] == Feed("ndvi", "filter");
    var load, ndvi, filter := dag.nodes[0], dag.nodes[1], dag.nodes[2];
    hide FilteredPipeline;
    LoadAndNdviType(dag, load, ndvi);
    StepWiring(dag, filter.id, Data);
    TypRule(dag, filter.id);
    assert TypsOf(dag, [Some(ndvi.id)]) == [Typ(dag, ndvi.id)];
  }

  lemma PipelineAcyclic()
    ensures Acyclic(FilteredPipeline().edges)
    ensures Reach(FilteredPipeline().edges, "ndvi", "filter")
  {
    var es := FilteredPipeline().edges;
    ReachLink(es, es[1].from.node, es[1].to.node);
    assert "ndvi"[0] != "filter"[0] && "ndvi"[0] != "save"[0] && "filter"[0] != "save"[0];
    assert "load"[0] != "ndvi"[0] && "load"[0] != "filter"[0] && "load"[0] != "save"[0];
    forall e | e in es
      ensures !Reach(es, e.to.node, e.from.node)
    {
      // What an edge's target leads to, its source is not among.
      var below :=
        if e == es[0] then {"ndvi", "filter", "save"} else if e == es[1] then {"filter", "save"} else {"save"};
      if Reach(es, e.to.node, e.from.node) {
        ClosedUnderReach(es, below, e.to.node, e.from.node);
      }
    }
  }

  lemma PipelineApart(id: Id)
    requires NodeOf(FilteredPipeline().nodes, id).None?
    ensures Unwired(FilteredPipeline().edges, id) && id != "ndvi" && id != "filter" && "ndvi" != "filter"
  {
    var nodes := FilteredPipeline().nodes;
    assert nodes[0] in nodes && nodes[1] in nodes && nodes[2] in nodes && nodes[3] in nodes;
    assert "ndvi"[0] != "filter"[0];
  }

  // ----- The join offer compares kinds alone -----

  /** In the template the offer finds nothing against joining the scaled cube with the NDVI,
      both gray: the join has no type. */
  lemma JoinOfferUntyped(collection: string, nir: string, red: string, id: Id)
    requires NodeOf(NdviTemplate(collection, nir, red).nodes, id).None?
    ensures var dag, card := NdviTemplate(collection, nir, red), Node(id, MergeCubes, map[]);
            var dag' := Dag(dag.nodes + [card], JoinEdges(dag.edges, "s3", "s2", id, Cube1, Cube2));
            JoinIssueOf(dag, "s3", "s2") == None && Joined(dag, dag', "s3", "s2", card) && Typ(dag', id).None?
  {
    hide NdviTemplate, Straight, StageAfter, AllTyped, Typ, JoinEdges, WellFormed, AddsCard;
    var dag, card := NdviTemplate(collection, nir, red), Node(id, MergeCubes, map[]);
    var dag' := Dag(dag.nodes + [card], JoinEdges(dag.edges, "s3", "s2", id, Cube1, Cube2));
    TemplateEnds(collection, nir, red);
    assert "s3"[1] != "s2"[1];
    assert dag.nodes + [] == dag.nodes && dag.nodes + [card] + [] == dag.nodes + [card];
    InsertCard(dag.nodes, card, []);
    JoinTypesWhen(dag, dag', "s3", "s2", card);
  }

  lemma TemplateEnds(collection: string, nir: string, red: string)
    ensures var dag := NdviTemplate(collection, nir, red);
            WellFormed(dag) && UniqueIds(dag.nodes) &&
            (NodeOf(dag.nodes, "s2").Some? && HasOutput(NodeOf(dag.nodes, "s2").value.process)) &&
            (NodeOf(dag.nodes, "s3").Some? && HasOutput(NodeOf(dag.nodes, "s3").value.process)) &&
            Typ(dag, "s2") == Some(Stage(Gray, false)) && Typ(dag, "s3") == Some(Stage(Gray, true))
  {
    hide NdviTemplate, Straight, StageAfter, Typ, UniqueIds, EdgeFits, SingleFed;
    var dag := NdviTemplate(collection, nir, red);
    TemplateStraight(collection, nir, red);
    TemplateProcesses(collection, nir, red);
    TemplateStages(collection, nir, red);
    StraightStage(dag, dag.nodes, 1);
    StraightStage(dag, dag.nodes, 2);
    StraightWellFormed(dag, dag.nodes);
  }

  // ----- A branch into a reducing step -----

  /** A load that feeds the output, and an NDVI that nothing feeds. */
  ghost predicate UnfedNdvi(dag: Dag, head: Node, step: Node, last: Node) {
    head.process.LoadCollection? && step.process.Ndvi? && last.process.SaveResult? &&
    dag == Dag([head] + [step] + [last], [Feed(head.id, last.id)]) && UniqueIds(dag.nodes)
  }

  lemma UnfedNdviWellFormed(dag: Dag, head: Node, step: Node, last: Node)
    requires UnfedNdvi(dag, head, step, last)
    ensures WellFormed(dag) && Feeding(dag.edges, step.id, Data).None? && NodeOf(dag.nodes, step.id) == Some(step)
  {
    hide NodeOf, UniqueIds;
    var e := Feed(head.id, last.id);
    assert dag.nodes[0] == head && dag.nodes[1] == step && dag.nodes[2] == last;
    assert dag.edges[0] == e;
    NodeOfUnique(dag.nodes, head);
    NodeOfUnique(dag.nodes, step);
    NodeOfUnique(dag.nodes, last);
    LoadToSaveFits(dag.nodes, head, last);
    assert SingleFed(dag.edges);
    NdviUnfed(dag, head, step, last);
  }

  lemma LoadToSaveFits(nodes: seq<Node>, head: Node, last: Node)
    requires NodeOf(nodes, head.id) == Some(head) && NodeOf(nodes, last.id) == Some(last)
    requires head.process.LoadCollection? && last.process.SaveResult?
    ensures EdgeFits(nodes, Feed(head.id, last.id))
  {
  }

  lemma NdviUnfed(dag: Dag, head: Node, step: Node, last: Node)
    requires UnfedNdvi(dag, head, step, last)
    ensures Feeding(dag.edges, step.id, Data).None?
  {
    assert dag.nodes[1].id != dag.nodes[2].id;
    if Feeding(dag.edges, step.id, Data).Some? { FeedingIn(dag.edges, step.id, Data); }
  }

  /** A branch started into its free input, an NDVI feeding an NDVI, leaves it without a
      type. */
  lemma BranchIntoReduce(dag: Dag, dag': Dag, head: Node, step: Node, last: Node, load: Node, ndvi: Node)
    requires UnfedNdvi(dag, head, step, last)
    requires load.process.LoadCollection? && ndvi.process.Ndvi? && load.id != ndvi.id
    requires NodeOf(dag.nodes, load.id).None? && NodeOf(dag.nodes, ndvi.id).None?
    requires dag' == Dag([head] + ([step] + [load, ndvi]) + [last],
                         BranchEdges(dag.edges, load.id, ndvi.id, step.id, Data))
    ensures BranchedInto(dag, dag', load, ndvi, step.id, Data) && Typ(dag', step.id).None?
  {
    hide WellFormed, AddsBranch, BranchEdges, Typ, Feeding, SourceOf, NodeOf, UniqueIds;
    UnfedNdviWellFormed(dag, head, step, last);
    BranchAdded(head, [step], last, load, ndvi);
    BranchTypesWhen(dag, dag', load, ndvi, step.id, Data);
  }

  // ----- A reducing step taken out before a join -----

  /** One load, reduced by two NDVIs that a join takes. */
  ghost predicate JoinedPair(dag: Dag, load: Node, ndvi: Node, other: Node, join: Node) {
    load.process.LoadCollection? && ndvi.process.Ndvi? && other.process.Ndvi? && join.process.MergeCubes? &&
    dag.nodes == [load, ndvi, other, join] && UniqueIds(dag.nodes) &&
    dag.edges == [Feed(load.id, ndvi.id), Feed(load.id, other.id),
                  Edge(PortRef(ndvi.id, Out), PortRef(join.id, Cube1)),
                  Edge(PortRef(other.id, Out), PortRef(join.id, Cube2))]
  }

  lemma PairNodes(dag: Dag, load: Node, ndvi: Node, other: Node, join: Node)
    requires JoinedPair(dag, load, ndvi, other, join)
    ensures NodeOf(dag.nodes, load.id) == Some(load) && NodeOf(dag.nodes, ndvi.id) == Some(ndvi)
    ensures NodeOf(dag.nodes, other.id) == Some(other) && NodeOf(dag.nodes, join.id) == Some(join)
    ensures forall n :: n in dag.nodes ==> n == load || n == ndvi || n == other || n == join
  {
    hide UniqueIds, NodeOf;
    assert dag.nodes[0] == load && dag.nodes[1] == ndvi && dag.nodes[2] == other && dag.nodes[3] == join;
    NodeOfUnique(dag.nodes, load);
    NodeOfUnique(dag.nodes, ndvi);
    NodeOfUnique(dag.nodes, other);
    NodeOfUnique(dag.nodes, join);
  }

  lemma PairApart(dag: Dag, load: Node, ndvi: Node, other: Node, join: Node)
    requires JoinedPair(dag, load, ndvi, other, join)
    ensures load.id != ndvi.id && load.id != other.id && load.id != join.id
    ensures ndvi.id != other.id && ndvi.id != join.id && other.id != join.id
    ensures SingleFed(dag.edges)
  {
    var ns := dag.nodes;
    assert ns[0].id != ns[1].id && ns[0].id != ns[2].id && ns[0].id != ns[3].id;
    assert ns[1].id != ns[2].id && ns[1].id != ns[3].id && ns[2].id != ns[3].id;
  }

  lemma PairTyped(dag: Dag, load: Node, ndvi: Node, other: Node, join: Node)
    requires JoinedPair(dag, load, ndvi, other, join)
    ensures Typed(dag) && Typ(dag, ndvi.id) == Typ(dag, join.id) == GRAY
  {
    hide Typ, NodeOf, SingleFed, UniqueIds, SourceOf;
    PairNodes(dag, load, ndvi, other, join);
    PairApart(dag, load, ndvi, other, join);
    FedBy(dag, dag.edges[0]);
    FedBy(dag, dag.edges[1]);
    FedBy(dag, dag.edges[2]);
    FedBy(dag, dag.edges[3]);
    LoadAndNdviType(dag, load, ndvi);
    LoadAndNdviType(dag, load, other);
    GrayJoinTypes(dag, join, ndvi.id, other.id);
    forall e | e in dag.edges
      ensures EdgeFits(dag.nodes, e)
    {
      assert e == dag.edges[0] || e == dag.edges[1] || e == dag.edges[2] || e == dag.edges[3];
    }
  }

  /** The first edge of a list among those into a step, out of it, and apart from it. */
  lemma TouchCons(e: Edge, es: seq<Edge>, id: Id)
    ensures Incoming([e] + es, id) == (if e.to.node == id then [e] else []) + Incoming(es, id)
    ensures Outgoing([e] + es, id) == (if e.from.node == id then [e] else []) + Outgoing(es, id)
    ensures Apart([e] + es, id) == (if e.to.node == id || e.from.node == id then [] else [e]) + Apart(es, id)
    ensures NotFrom([e] + es, id) == (if e.from.node == id then [] else [e]) + NotFrom(es, id)
  {
    assert ([e] + es)[1..] == es;
  }

  lemma TouchNone(id: Id)
    ensures Incoming([], id) == [] && Outgoing([], id) == [] && Apart([], id) == [] && NotFrom([], id) == []
  {
  }

  lemma PairOnPath(dag: Dag, load: Node, ndvi: Node, other: Node, join: Node)
    requires JoinedPair(dag, load, ndvi, other, join)
    ensures Incoming(dag.edges, ndvi.id) == [Feed(load.id, ndvi.id)]
    ensures Outgoing(dag.edges, ndvi.id) == [Edge(PortRef(ndvi.id, Out), PortRef(join.id, Cube1))]
  {
    hide Incoming, Outgoing, Apart, NotFrom, UniqueIds;
    PairApart(dag, load, ndvi, other, join);
    var es := dag.edges;
    TouchNone(ndvi.id);
    TouchCons(es[3], [], ndvi.id);
    TouchCons(es[2], [es[3]], ndvi.id);
    TouchCons(es[1], [es[2], es[3]], ndvi.id);
    TouchCons(es[0], [es[1], es[2], es[3]], ndvi.id);
    assert [es[3]] + [] == [es[3]] && [es[2]] + [es[3]] == [es[2], es[3]];
    assert [es[1]] + [es[2], es[3]] == [es[1], es[2], es[3]] && [es[0]] + [es[1], es[2], es[3]] == es;
  }

  /** Taking one of the NDVIs out of the pair, which types, leaves the join without a type. */
  lemma ReduceDropped(dag: Dag, dag': Dag, load: Node, ndvi: Node, other: Node, join: Node)
    requires JoinedPair(dag, load, ndvi, other, join)
    requires dag' == Dag(DropId(dag.nodes, ndvi.id), RemoveEdges(dag.edges, ndvi.id))
    ensures TakenOut(dag, dag', ndvi.id) && Typed(dag) && Typ(dag', join.id).None?
  {
    PairTyped(dag, load, ndvi, other, join);
    PairNodes(dag, load, ndvi, other, join);
    PairOnPath(dag, load, ndvi, other, join);
    hide Typ, WellFormed, DropsCard, RemoveEdges, NodeOf, UniqueIds, Incoming, Outgoing, AllTyped;
    DropCard(dag.nodes, ndvi.id);
    assert OnPath(dag.edges, ndvi.id) && Target(dag, ndvi.id) == join.id;
    ReduceBeforeJoin(dag, dag', ndvi.id);
  }

  // ----- A card that feeds itself alone -----

  function Into(e: Edge, id: Id): seq<Edge> {
    if e.to.node == id then [e] else []
  }

  function OutOf(e: Edge, id: Id): seq<Edge> {
    if e.from.node == id then [e] else []
  }

  function Off(e: Edge, id: Id): seq<Edge> {
    if e.to.node == id || e.from.node == id then [] else [e]
  }

  lemma TouchPair(x: Edge, y: Edge, id: Id)
    ensures Incoming([x, y], id) == Into(x, id) + Into(y, id)
    ensures Outgoing([x, y], id) == OutOf(x, id) + OutOf(y, id)
    ensures Apart([x, y], id) == Off(x, id) + Off(y, id)
  {
    hide Incoming, Outgoing, Apart;
    TouchNone(id);
    TouchCons(y, [], id);
    TouchCons(x, [y], id);
    assert [y] + [] == [y] && [x] + [y] == [x, y];
  }

  lemma TouchThree(x: Edge, y: Edge, z: Edge, id: Id)
    ensures Incoming([x, y, z], id) == Into(x, id) + (Into(y, id) + Into(z, id))
    ensures Outgoing([x, y, z], id) == OutOf(x, id) + (OutOf(y, id) + OutOf(z, id))
    ensures Apart([x, y, z], id) == Off(x, id) + (Off(y, id) + Off(z, id))
  {
    hide Incoming, Outgoing, Apart;
    TouchPair(y, z, id);
    TouchCons(x, [y, z], id);
    assert [x] + [y, z] == [x, y, z];
  }

  lemma TouchFive(v: Edge, w: Edge, x: Edge, y: Edge, z: Edge, id: Id)
    ensures Incoming([v, w, x, y, z], id) == Into(v, id) + (Into(w, id) + (Into(x, id) + (Into(y, id) + Into(z, id))))
    ensures Outgoing([v, w, x, y, z], id)
         == OutOf(v, id) + (OutOf(w, id) + (OutOf(x, id) + (OutOf(y, id) + OutOf(z, id))))
    ensures Apart([v, w, x, y, z], id) == Off(v, id) + (Off(w, id) + (Off(x, id) + (Off(y, id) + Off(z, id))))
  {
    hide Incoming, Outgoing, Apart;
    TouchThree(x, y, z, id);
    TouchCons(w, [x, y, z], id);
    TouchCons(v, [w, x, y, z], id);
    assert [w] + [x, y, z] == [w, x, y, z] && [v] + [w, x, y, z] == [v, w, x, y, z];
  }

  function JoinIn(head: Id, join: Id): Edge {
    Edge(PortRef(head, Out), PortRef(join, Cube1))
  }

  function JoinBranch(ndvi: Id, join: Id): Edge {
    Edge(PortRef(ndvi, Out), PortRef(join, Cube2))
  }

  /** A load feeding a filter, joined with it; the filter removed, and then the load: the join
      is left feeding itself. */
  lemma LoopLeft(a: Id, b: Id, id: Id)
    requires a != b && a != id && b != id
    ensures var joined := JoinEdges([Feed(a, b)], a, b, id, Cube1, Cube2);
            !SelfFed(joined, b) && !SelfFed(RemoveEdges(joined, b), a) &&
            RemoveEdges(RemoveEdges(joined, b), a) == [JoinBranch(id, id)]
  {
    hide Incoming, Outgoing, Apart, NotFrom;
    var loop, first := JoinBranch(id, id), JoinIn(a, id);
    var second, back := JoinBranch(b, id), Feed(id, b);
    TouchNone(a);
    TouchCons(Feed(a, b), [], a);
    assert [Feed(a, b)] + [] == [Feed(a, b)];
    assert From([Feed(a, b)], id) == [back];
    assert JoinEdges([Feed(a, b)], a, b, id, Cube1, Cube2) == [first, second, back];
    TouchThree(first, second, back, b);
    assert RemoveEdges([first, second, back], b) == [first, loop];
    TouchPair(first, loop, a);
  }

  /** A load, an output, and a join fed by nothing but itself: well-formed wiring, until the
      join is removed. */
  lemma LoneLoop(dag: Dag, dag': Dag, head: Node, join: Node, last: Node)
    requires head.process.LoadCollection? && join.process.MergeCubes? && last.process.SaveResult?
    requires dag == Dag([head, join, last], [JoinBranch(join.id, join.id)]) && UniqueIds(dag.nodes)
    requires dag' == Dag(DropId(dag.nodes, join.id), RemoveEdges(dag.edges, join.id))
    ensures WellFormed(dag) && TakenOut(dag, dag', join.id) && dag'.edges == dag.edges && !WellFormed(dag')
  {
    hide NodeOf, UniqueIds, DropId, RemoveEdges, DropsCard, Incoming, Outgoing, Apart;
    var loop := JoinBranch(join.id, join.id);
    assert dag.nodes[1] == join && dag.edges[0] == loop;
    NodeOfUnique(dag.nodes, join);
    assert EdgeFits(dag.nodes, loop) && SingleFed(dag.edges);
    DropCard(dag.nodes, join.id);
    SelfLoopStays(join.id);
    RemoveKeepsWellFormed(dag, dag', join.id);
  }

  lemma SelfLoopStays(id: Id)
    ensures RemoveEdges([JoinBranch(id, id)], id) == [JoinBranch(id, id)] && SelfFed([JoinBranch(id, id)], id)
  {
    hide Incoming, Outgoing, Apart;
    var loop := JoinBranch(id, id);
    TouchNone(id);
    TouchCons(loop, [], id);
    assert [loop] + [] == [loop];
  }

  // ----- The panel's own way there -----

  lemma CardsApart(dag: Dag, i: nat, j: nat)
    requires WellFormed(dag) && i < j < |dag.nodes|
    ensures dag.nodes[i].id != dag.nodes[j].id
  {
  }

  lemma CardFound(dag: Dag, i: nat)
    requires WellFormed(dag) && i < |dag.nodes|
    ensures NodeOf(dag.nodes, dag.nodes[i].id) == Some(dag.nodes[i])
  {
    NodeOfUnique(dag.nodes, dag.nodes[i]);
  }

  lemma InsertOnOnly(e: Edge, id: Id, port: Port)
    ensures InsertEdges([e], e, id, port) == [IntoStep(e, id, port), OutOfStep(e, id)]
  {
    assert [e][1..] == [] && Without([], e) == [];
  }

  /** A join inserted on the first pipeline's edge. */
  method InsertedJoin() returns (panel: Panel)
    ensures fresh(panel) && panel.Valid() && |panel.extra| == 1 && panel.extra[0].process.MergeCubes?
    ensures panel.edges == [JoinIn(panel.load.id, panel.extra[0].id), Feed(panel.extra[0].id, panel.save.id)]
  {
    hide InsertEdges, WellFormed, Issued, AddsCard, Unwired, Acyclic;
    panel := new Panel();
    var e := panel.edges[0];
    ghost var card := panel.InsertOn(e, MergeCubes);
    InsertOnOnly(e, card.id, Cube1);
    assert panel.extra == [card];
  }

  lemma PortsApart(head: Id, last: Id, join: Id)
    ensures Feeding([JoinIn(head, join), Feed(join, last)], join, Cube2).None?
  {
    var es := [JoinIn(head, join), Feed(join, last)];
    if Feeding(es, join, Cube2).Some? { FeedingIn(es, join, Cube2); }
  }

  /** A branch started into its free input. */
  method StartedBranch() returns (panel: Panel)
    ensures fresh(panel) && panel.Valid() && |panel.extra| == 3 && panel.extra[0].process.MergeCubes?
    ensures panel.extra[1].process.LoadCollection? && panel.extra[2].process.Ndvi?
    ensures var head, last, join := panel.load.id, panel.save.id, panel.extra[0].id;
            panel.edges == [JoinIn(head, join), Feed(join, last),
                            Feed(panel.extra[1].id, panel.extra[2].id), JoinBranch(panel.extra[2].id, join)]
  {
    hide WellFormed, Issued, NodeOf, Acyclic, Feeding, UniqueIds;
    panel := InsertedJoin();
    var join := panel.extra[0].id;
    CardFound(panel.Canvas(), 1);
    PortsApart(panel.load.id, panel.save.id, join);
    ghost var load, ndvi := panel.StartBranch(join, Cube2, {LoadCollection, Ndvi});
    assert panel.extra[1] == load && panel.extra[2] == ndvi;
  }

  lemma WithoutCons(x: Edge, es: seq<Edge>, e: Edge)
    ensures Without([x] + es, e) == (if x == e then [] else [x]) + Without(es, e)
  {
    assert ([x] + es)[1..] == es;
  }

  lemma NothingWithout(e: Edge)
    ensures Without([], e) == []
  {
  }

  lemma FilterInserted(w: Edge, x: Edge, e: Edge, y: Edge, id: Id)
    requires w != e && x != e && y != e
    ensures InsertEdges([w, x, e, y], e, id, Data) == [w, x, y, IntoStep(e, id, Data), OutOfStep(e, id)]
  {
    NothingWithout(e);
    hide Without;
    WithoutCons(y, [], e);
    WithoutCons(e, [y], e);
    WithoutCons(x, [e, y], e);
    WithoutCons(w, [x, e, y], e);
    assert [y] + [] == [y] && [e] + [y] == [e, y] && [x] + [e, y] == [x, e, y] && [w] + [x, e, y] == [w, x, e, y];
  }

  /** A date filter inserted between its load and its NDVI. */
  method FilteredBranch() returns (panel: Panel)
    ensures fresh(panel) && panel.Valid() && |panel.extra| == 4
    ensures panel.extra[1].process.LoadCollection? && panel.extra[3].process.FilterTemporal?
    ensures var head, last, join, load := panel.load.id, panel.save.id, panel.extra[0].id, panel.extra[1].id;
            var ndvi, filter := panel.extra[2].id, panel.extra[3].id;
            panel.edges == [JoinIn(head, join), Feed(join, last), JoinBranch(ndvi, join),
                            Feed(load, filter), Feed(filter, ndvi)]
  {
    hide WellFormed, Issued, NodeOf, Acyclic, InsertEdges, UniqueIds, AddsCard, Unwired;
    panel := StartedBranch();
    var es := panel.edges;
    CardsApart(panel.Canvas(), 0, 2);
    CardsApart(panel.Canvas(), 1, 2);
    ghost var card := panel.InsertOn(es[2], FilterTemporal);
    FilterInserted(es[0], es[1], es[2], es[3], card.id);
    assert panel.extra[3] == card;
  }

  lemma JoinRemoved(head: Id, last: Id, join: Id, load: Id, ndvi: Id, filter: Id)
    requires join != head && join != last && join != load && join != ndvi && join != filter
    ensures var es := [JoinIn(head, join), Feed(join, last), JoinBranch(ndvi, join),
                       Feed(load, filter), Feed(filter, ndvi)];
            RemoveEdges(es, join) == [Feed(load, filter), Feed(filter, ndvi)] && !SelfFed(es, join)
  {
    hide Incoming, Outgoing, Apart;
    TouchFive(JoinIn(head, join), Feed(join, last), JoinBranch(ndvi, join),
              Feed(load, filter), Feed(filter, ndvi), join);
  }

  lemma NdviRemoved(load: Id, ndvi: Id, filter: Id)
    requires ndvi != load && ndvi != filter
    ensures var es := [Feed(load, filter), Feed(filter, ndvi)];
            RemoveEdges(es, ndvi) == [Feed(load, filter)] && !SelfFed(es, ndvi)
  {
    hide Incoming, Outgoing, Apart;
    TouchPair(Feed(load, filter), Feed(filter, ndvi), ndvi);
  }

  lemma CardsBeside(head: Node, cards: seq<Node>, last: Node, i: nat, n: Node)
    requires UniqueIds([head] + cards + [last]) && i < |cards| && (n in cards[..i] || n in cards[i + 1..])
    ensures n.id != cards[i].id
  {
    var all := [head] + cards + [last];
    assert forall k :: 0 <= k < |cards| ==> all[k + 1] == cards[k];
    if n in cards[..i] {
      var k :| 0 <= k < i && cards[k] == n;
      assert all[k + 1].id != all[i + 1].id;
    } else {
      var k :| i < k < |cards| && cards[k] == n;
      assert all[i + 1].id != all[k + 1].id;
    }
  }

  /** Dropping a card of a list with unique ids takes its place out. */
  lemma DropAt(head: Node, cards: seq<Node>, last: Node, i: nat)
    requires UniqueIds([head] + cards + [last]) && i < |cards|
    ensures DropId(cards, cards[i].id) == cards[..i] + cards[i + 1..]
  {
    hide UniqueIds, DropId;
    var card, before, after := cards[i], cards[..i], cards[i + 1..];
    forall n | n in before || n in after
      ensures n.id != card.id
    {
      CardsBeside(head, cards, last, i, n);
    }
    assert cards == before + ([card] + after);
    DropAppend(before, [card] + after, card.id);
    DropAppend([card], after, card.id);
    DropNone(before, card.id);
    DropNone(after, card.id);
    DropOnly(card);
  }

  lemma DropOnly(card: Node)
    ensures DropId([card], card.id) == []
  {
  }

  /** Removes the card in the `i`-th place. */
  method RemovePlace(panel: Panel, i: nat)
    requires panel.Valid() && i < |panel.extra|
    modifies panel
    ensures panel.extra == old(panel.extra[..i] + panel.extra[i + 1..])
    ensures panel.edges == RemoveEdges(old(panel.edges), old(panel.extra[i].id))
    ensures panel.Valid() <==> !SelfFed(old(panel.edges), old(panel.extra[i].id))
    ensures NodeOf(panel.Cards(), old(panel.extra[i].id)).None?
  {
    hide WellFormed, Issued, NodeOf, Acyclic, RemoveEdges, UniqueIds, DropId, SelfFed;
    ValidNodes(panel.Canvas());
    DropAt(panel.load, panel.extra, panel.save, i);
    panel.RemoveCard(panel.extra[i]);
  }

  /** The join removed, and then the branch's NDVI: the load feeds the filter, and nothing
      else is connected. */
  method DetachedBranch() returns (panel: Panel)
    ensures fresh(panel) && panel.Valid() && |panel.extra| == 2
    ensures panel.extra[0].process.LoadCollection? && panel.extra[1].process.FilterTemporal?
    ensures panel.edges == [Feed(panel.extra[0].id, panel.extra[1].id)]
  {
    hide WellFormed, Issued, NodeOf, Acyclic, RemoveEdges, UniqueIds, SelfFed;
    panel := FilteredBranch();
    ghost var cards, canvas := panel.extra, panel.Canvas();
    ghost var join, load, ndvi, filter := cards[0].id, cards[1].id, cards[2].id, cards[3].id;
    CardsApart(canvas, 0, 1);
    CardsApart(canvas, 1, 2);
    CardsApart(canvas, 1, 3);
    CardsApart(canvas, 1, 4);
    CardsApart(canvas, 1, 5);
    CardsApart(canvas, 2, 3);
    CardsApart(canvas, 3, 4);
    JoinRemoved(panel.load.id, panel.save.id, join, load, ndvi, filter);
    NdviRemoved(load, ndvi, filter);
    RemovePlace(panel, 0);
    assert panel.extra == [cards[1], cards[2], cards[3]];
    RemovePlace(panel, 1);
    assert panel.extra == [cards[1], cards[3]];
  }

  lemma LoadAndFilterOffered(dag: Dag, load: Node, filter: Node)
    requires NodeOf(dag.nodes, load.id) == Some(load) && load.process.LoadCollection?
    requires NodeOf(dag.nodes, filter.id) == Some(filter) && filter.process.FilterTemporal?
    requires dag.edges == [Feed(load.id, filter.id)]
    ensures JoinIssueOf(dag, load.id, filter.id) == None
  {
    hide Typ, NodeOf;
    LoadRule(dag, load.id);
    FedBy(dag, dag.edges[0]);
    OneInputRule(dag, filter.id, Data);
  }

  /** The load and the filter joined, to which the offer finds no objection. */
  method LoadJoinedFilter() returns (panel: Panel, issue: Option<JoinIssue>)
    ensures fresh(panel) && panel.Valid() && |panel.extra| == 3 && issue == None
    ensures var a, b, id := panel.extra[0].id, panel.extra[1].id, panel.extra[2].id;
            a != b && a != id && b != id && panel.edges == JoinEdges([Feed(a, b)], a, b, id, Cube1, Cube2)
  {
    hide WellFormed, Issued, NodeOf, Acyclic, JoinEdges, AddsCard, Unwired, Typ, Reach, UniqueIds;
    panel := DetachedBranch();
    var load, filter := panel.extra[0], panel.extra[1];
    CardFound(panel.Canvas(), 1);
    CardFound(panel.Canvas(), 2);
    CardsApart(panel.Canvas(), 1, 2);
    LoadAndFilterOffered(panel.Canvas(), load, filter);
    issue := FindJoinIssue(panel.Canvas(), load.id, filter.id);
    ghost var card := panel.JoinPair(load.id, filter.id, MergeCubes);
    CardsApart(panel.Canvas(), 1, 3);
    CardsApart(panel.Canvas(), 2, 3);
    assert panel.extra == [load, filter, card];
  }

  /** The filter removed, and then the load: the join feeds itself alone, and removing it
      leaves its edge on a canvas without it. */
  method LoopLeftBehind() returns (panel: Panel, issue: Option<JoinIssue>, join: Id)
    ensures fresh(panel) && panel.extra == [] && issue == None
    ensures panel.edges == [JoinBranch(join, join)]
    ensures NodeOf(panel.Cards(), join).None? && !panel.Valid()
  {
    hide WellFormed, Issued, NodeOf, RemoveEdges, JoinEdges, UniqueIds, SelfFed;
    panel, issue := LoadJoinedFilter();
    ghost var cards := panel.extra;
    join := panel.extra[2].id;
    LoopLeft(cards[0].id, cards[1].id, join);
    SelfLoopStays(join);
    RemovePlace(panel, 1);
    assert panel.extra == [cards[0], cards[2]];
    RemovePlace(panel, 0);
    assert panel.extra == [cards[2]];
    RemovePlace(panel, 0);
  }
}
