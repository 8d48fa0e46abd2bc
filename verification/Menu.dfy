/** The edits the panel offers, and the well-typed graphs they lead to. */
module Menu {
  import opened Wrappers
  import opened Stages
  import opened Graph
  import opened Paths
  import opened Typing
  import opened Edits
  import opened Branching
  import opened Discipline
  import opened Palette
  import opened Removal
  import opened Joining
  import Panel

  // ----- Inserting what an edge's menu offers -----

  /** The graph with a card inserted on an edge. */
  ghost predicate InsertedOn(dag: Dag, dag': Dag, e: Edge, card: Node) {
    e in dag.edges && Inputs(card.process) != [] && HasOutput(card.process) &&
    AddsCard(dag.nodes, dag'.nodes, card) && dag'.edges == InsertEdges(dag.edges, e, card.id, Inputs(card.process)[0])
  }

  lemma SplicedMembers(dag: Dag, dag': Dag, e: Edge, card: Node)
    requires WellFormed(dag) && InsertedOn(dag, dag', e, card)
    ensures Splice(dag, e, card).Some? && SingleFed(Splice(dag, e, card).value.edges) && SingleFed(dag'.edges)
    ensures forall f :: f in Splice(dag, e, card).value.edges <==> f in dag'.edges
  {
    var port := Inputs(card.process)[0];
    InsertKeepsWellFormed(dag, dag', e, card);
    hide WellFormed, AddsCard, SingleFed, InsertEdges, Inputs, Splice, Unwired;
    InsertMembers(dag.edges, e, card.id, port);
    WellFormedSingleFed(dag);
    WellFormedSingleFed(dag');
    SpliceMembers(dag, e, card);
  }

  lemma WellFormedSingleFed(dag: Dag)
    requires WellFormed(dag)
    ensures SingleFed(dag.edges)
  {
  }

  lemma SplicedNode(nodes: seq<Node>, nodes': seq<Node>, card: Node, x: Id)
    requires AddsCard(nodes, nodes', card)
    ensures NodeOf(nodes + [card], x) == NodeOf(nodes', x)
  {
    NodeOfSnoc(nodes, card, x);
  }

  /** The insertion the panel makes has the types of the splice its menu asked about. */
  lemma InsertedTypes(dag: Dag, dag': Dag, e: Edge, card: Node, x: Id)
    requires WellFormed(dag) && InsertedOn(dag, dag', e, card)
    ensures Splice(dag, e, card).Some? && Typ(dag', x) == Typ(Splice(dag, e, card).value, x)
  {
    SplicedMembers(dag, dag', e, card);
    var spliced := Splice(dag, e, card).value;
    forall y
      ensures Wiring(dag', y) == Wiring(spliced, y)
    {
      SplicedNode(dag.nodes, dag'.nodes, card, y);
      SameWiring(spliced, dag', y);
    }
    hide InsertedOn, WellFormed, Splice, Wiring, Typ;
    TypCongruence(spliced, dag', Everything(), x);
  }

  predicate IsId(x: Id) {
    |x| >= 0
  }

  ghost function Everything(): (s: iset<Id>)
    ensures forall x :: x in s
  {
    iset x | IsId(x)
  }

  lemma SameWiring(dag: Dag, dag': Dag, x: Id)
    requires NodeOf(dag'.nodes, x) == NodeOf(dag.nodes, x) && SingleFed(dag'.edges)
    requires forall f :: f in dag.edges <==> f in dag'.edges
    ensures Wiring(dag', x) == Wiring(dag, x)
  {
    hide SingleFed, Feeding, NodeOf;
    forall port
      ensures SourceOf(dag'.edges, x, port) == SourceOf(dag.edges, x, port)
    {
      SameFeed(dag.edges, dag'.edges, x, port);
    }
    SameSources(dag, dag', x);
  }

  /** The menu asks about a step without parameters, which typing does not read. */
  lemma BareSplice(dag: Dag, e: Edge, card: Node, x: Id)
    requires NodeOf(dag.nodes, card.id).None?
    ensures Splice(dag, e, card).Some? <==> Splice(dag, e, Node(card.id, card.process, map[])).Some?
    ensures Splice(dag, e, card).Some? ==>
      Typ(Splice(dag, e, card).value, x) == Typ(Splice(dag, e, Node(card.id, card.process, map[])).value, x)
  {
    if Splice(dag, e, card).Some? {
      var bare := Node(card.id, card.process, map[]);
      var a, b := Splice(dag, e, bare).value, Splice(dag, e, card).value;
      assert a.edges == b.edges;
      forall y
        ensures Wiring(b, y) == Wiring(a, y)
      {
        NodeOfSnoc(dag.nodes, card, y);
        NodeOfSnoc(dag.nodes, bare, y);
      }
      hide Splice, Wiring, Typ;
      TypCongruence(a, b, Everything(), x);
    }
  }

  /** What an edge's menu offers to splice, once inserted by the panel, leaves the graph well
      typed: and only that does. */
  lemma OfferedInsertTypes(dag: Dag, dag': Dag, e: Edge, served: Served, card: Node)
    requires WellFormed(dag) && InsertedOn(dag, dag', e, card) && Offered(served, card.process)
    requires !card.process.MergeCubes?
    ensures Insertable(dag, e, served, card.id, card.process) <==> AllTyped(dag')
  {
    var bare := Node(card.id, card.process, map[]);
    AddedCard(dag.nodes, dag'.nodes, card);
    FreshCard(dag, dag', e, card);
    forall x
      ensures Splice(dag, e, bare).Some? && Typ(dag', x) == Typ(Splice(dag, e, bare).value, x)
    {
      InsertedTypes(dag, dag', e, card, x);
      BareSplice(dag, e, card, x);
    }
    var spliced := Splice(dag, e, bare).value;
    hide WellFormed, Typ;
    assert spliced.nodes == dag.nodes + [bare];
    assert card in dag'.nodes && bare in spliced.nodes;
  }

  lemma FreshCard(dag: Dag, dag': Dag, e: Edge, card: Node)
    requires InsertedOn(dag, dag', e, card)
    ensures NodeOf(dag.nodes, card.id).None?
  {
  }

  // ----- Starting a branch -----

  /** A branch started into a free port. */
  ghost predicate BranchedInto(dag: Dag, dag': Dag, load: Node, ndvi: Node, id: Id, port: Port) {
    WellFormed(dag) && AddsBranch(dag.nodes, dag'.nodes, load, ndvi) &&
    NodeOf(dag.nodes, id).Some? && port in Inputs(NodeOf(dag.nodes, id).value.process) &&
    Feeding(dag.edges, id, port).None? && dag'.edges == BranchEdges(dag.edges, load.id, ndvi.id, id, port)
  }

  /** The step takes a gray unscaled cube at the port, beside what feeds its other input. */
  ghost predicate TakesGray(dag: Dag, id: Id, port: Port)
    requires NodeOf(dag.nodes, id).Some?
  {
    var p := NodeOf(dag.nodes, id).value.process;
    p.FilterTemporal? || p.LinearScaleRange? || p.SaveResult? ||
    (p.MergeCubes? && TypOf(dag, SourceOf(dag.edges, id, OtherPort(port))) == GRAY)
  }

  lemma BranchedGraph(dag: Dag, dag': Dag, load: Node, ndvi: Node, id: Id, port: Port)
    requires BranchedInto(dag, dag', load, ndvi, id, port)
    ensures WellFormed(dag') && SingleFed(dag'.edges) && id != load.id && id != ndvi.id && load.id != ndvi.id
    ensures Unwired(dag.edges, load.id) && Unwired(dag.edges, ndvi.id)
    ensures forall f :: f in dag'.edges <==>
      f in dag.edges || f == BranchIn(load.id, ndvi.id) || f == BranchOut(ndvi.id, id, port)
    ensures NodeOf(dag'.nodes, load.id) == Some(load) && load.process.LoadCollection?
    ensures NodeOf(dag'.nodes, ndvi.id) == Some(ndvi) && ndvi.process.Ndvi?
    ensures NodeOf(dag'.nodes, id) == NodeOf(dag.nodes, id)
  {
    BranchKeepsWellFormed(dag, dag', load, ndvi, id, port);
    BranchMembers(dag.edges, load.id, ndvi.id, id, port);
    FreshUnwired(dag, load.id);
    FreshUnwired(dag, ndvi.id);
  }

  /** The port is fed by the branch, and every other port of an old step as before. */
  lemma SourceBranched(dag: Dag, dag': Dag, load: Node, ndvi: Node, id: Id, port: Port, x: Id, at: Port)
    requires BranchedInto(dag, dag', load, ndvi, id, port) && x != load.id && x != ndvi.id
    ensures SourceOf(dag'.edges, x, at) == if x == id && at == port then Some(ndvi.id) else SourceOf(dag.edges, x, at)
  {
    BranchedGraph(dag, dag', load, ndvi, id, port);
    hide BranchedInto, WellFormed, SingleFed, NodeOf, Unwired;
    if x == id && at == port {
      FedBy(dag', BranchOut(ndvi.id, id, port));
    } else {
      SameFeed(dag.edges, dag'.edges, x, at);
    }
  }

  /** What the step does not lead to keeps its type. */
  lemma BesideBranch(dag: Dag, dag': Dag, load: Node, ndvi: Node, id: Id, port: Port, x: Id)
    requires BranchedInto(dag, dag', load, ndvi, id, port) && NodeOf(dag.nodes, x).Some? && !Reach(dag.edges, id, x)
    ensures Typ(dag', x) == Typ(dag, x)
  {
    BranchedGraph(dag, dag', load, ndvi, id, port);
    var s := UnledOn(dag, id);
    forall y | y in s
      ensures Wiring(dag', y) == Wiring(dag, y)
    {
      UnledBranched(dag, dag', load, ndvi, id, port, y);
    }
    hide BranchedInto, WellFormed, Wiring, Typ, Reach, SingleFed, Unwired;
    forall y, z | y in s && Needs(dag, y, z)
      ensures z in s
    {
      NeedsLinked(dag, y, z);
      UnledSource(dag.edges, id, z, y);
      LinkedFound(dag, z, y);
    }
    TypCongruence(dag, dag', s, x);
  }

  ghost function UnledOn(dag: Dag, id: Id): (s: iset<Id>)
    ensures forall x :: x in s <==> NodeOf(dag.nodes, x).Some? && !Reach(dag.edges, id, x)
  {
    iset x | NodeOf(dag.nodes, x).Some? && !Reach(dag.edges, id, x)
  }

  lemma LinkedFound(dag: Dag, a: Id, b: Id)
    requires WellFormed(dag) && Linked(dag.edges, a, b)
    ensures NodeOf(dag.nodes, a).Some?
  {
  }

  lemma UnledBranched(dag: Dag, dag': Dag, load: Node, ndvi: Node, id: Id, port: Port, y: Id)
    requires BranchedInto(dag, dag', load, ndvi, id, port) && y in UnledOn(dag, id)
    ensures Wiring(dag', y) == Wiring(dag, y)
  {
    ReachRefl(dag.edges, id);
    assert y != load.id && y != ndvi.id && NodeOf(dag'.nodes, y) == NodeOf(dag.nodes, y);
    hide BranchedInto, Reach, Feeding, NodeOf;
    forall at
      ensures SourceOf(dag'.edges, y, at) == SourceOf(dag.edges, y, at)
    {
      SourceBranched(dag, dag', load, ndvi, id, port, y, at);
    }
    SameSources(dag, dag', y);
  }

  /** A branch started into a free port makes its step type exactly when the step takes a gray
      unscaled cube there: always for a date filter, a scale or the output, never for a
      reducing step, and for a join when its other input carries one too. */
  lemma BranchTypesWhen(dag: Dag, dag': Dag, load: Node, ndvi: Node, id: Id, port: Port)
    requires BranchedInto(dag, dag', load, ndvi, id, port)
    ensures Typ(dag', id).Some? <==> TakesGray(dag, id, port)
    ensures Typ(dag', load.id) == Some(LOAD_STAGE) && Typ(dag', ndvi.id) == GRAY
  {
    hide BranchedInto, WellFormed, Typ, SingleFed, SourceOf, NodeOf, Reach, Unwired;
    BranchedGraph(dag, dag', load, ndvi, id, port);
    BranchedPort(dag, dag', load, ndvi, id, port);
    var p := NodeOf(dag.nodes, id).value.process;
    PortOf(p, port);
    FedBy(dag', BranchIn(load.id, ndvi.id));
    LoadAndNdviType(dag', load, ndvi);
    SourceBranched(dag, dag', load, ndvi, id, port, id, port);
    if p.MergeCubes? {
      var other := OtherPort(port);
      SourceBranched(dag, dag', load, ndvi, id, port, id, other);
      OtherSourceKept(dag, dag', load, ndvi, id, port, other);
      JoinFed(dag', id, port, SourceOf(dag.edges, id, other), ndvi.id);
    } else {
      OneInputRule(dag', id, port);
    }
  }

  lemma BranchedPort(dag: Dag, dag': Dag, load: Node, ndvi: Node, id: Id, port: Port)
    requires BranchedInto(dag, dag', load, ndvi, id, port)
    ensures NodeOf(dag.nodes, id).Some? && port in Inputs(NodeOf(dag.nodes, id).value.process)
  {
  }

  lemma PortOf(p: Process, port: Port)
    requires port in Inputs(p)
    ensures p.MergeCubes? ==> port == Cube1 || port == Cube2
    ensures !p.MergeCubes? ==> Inputs(p) == [port]
    ensures Known(p) && !p.LoadCollection?
  {
  }

  lemma OtherSourceKept(dag: Dag, dag': Dag, load: Node, ndvi: Node, id: Id, port: Port, other: Port)
    requires BranchedInto(dag, dag', load, ndvi, id, port)
    ensures TypOf(dag', SourceOf(dag.edges, id, other)) == TypOf(dag, SourceOf(dag.edges, id, other))
  {
    if SourceOf(dag.edges, id, other).Some? {
      FeedingIn(dag.edges, id, other);
      var e := Feeding(dag.edges, id, other).value;
      assert EdgeFits(dag.nodes, e);
      BranchedGraph(dag, dag', load, ndvi, id, port);
      hide BranchedInto, WellFormed, Typ, Reach, SingleFed, Unwired, NodeOf;
      if Reach(dag.edges, id, e.from.node) {
        // The source is on a cycle, before the branch and after.
        ReachMono(dag.edges, dag'.edges, id, e.from.node);
        if Typ(dag, e.from.node).Some? { TypedOffCycle(dag, e); }
        if Typ(dag', e.from.node).Some? { TypedOffCycle(dag', e); }
      } else {
        BesideBranch(dag, dag', load, ndvi, id, port, e.from.node);
      }
    }
  }

  /** A join fed a gray unscaled cube at one input types exactly when the other is too. */
  lemma JoinFed(dag: Dag, id: Id, port: Port, other: Option<Id>, gray: Id)
    requires NodeOf(dag.nodes, id).Some? && NodeOf(dag.nodes, id).value.process.MergeCubes?
    requires (port == Cube1 || port == Cube2) && Typ(dag, gray) == GRAY
    requires SourceOf(dag.edges, id, port) == Some(gray) && SourceOf(dag.edges, id, OtherPort(port)) == other
    ensures Typ(dag, id).Some? <==> TypOf(dag, other) == GRAY
  {
    hide Typ, SourceOf, NodeOf;
    JoinWiring(dag, id);
    TypRule(dag, id);
    var sources := Wiring(dag, id).value.sources;
    assert TypsOf(dag, sources) == [TypOf(dag, sources[0]), TypOf(dag, sources[1])];
  }

  // ----- Runs of edits -----

  datatype Edit =
    | Insert(on: Edge, card: Node)
    | InsertJoin(on: Edge, join: Node, load: Node, ndvi: Node)
    | Join(first: Id, second: Id, card: Node)
    | Remove(id: Id)

  /** One edit of the panel: an offered insertion; a join inserted where the menu offers one,
      with its branch started; two steps joined, or a card removed, where types allow it and
      no loop closes. */
  ghost predicate Edited(dag: Dag, edit: Edit, dag': Dag, served: Served) {
    match edit
    case Insert(e, card) =>
      InsertedOn(dag, dag', e, card) && Insertable(dag, e, served, card.id, card.process)
    case InsertJoin(e, join, load, ndvi) =>
      e in dag.edges && Typ(dag, e.from.node) == GRAY && JoinedByBranch(dag, dag', e, join, load, ndvi)
    case Join(a, b, card) =>
      JoinedGray(dag, dag', a, b, card)
    case Remove(id) =>
      TakenOut(dag, dag', id) &&
      (FeedsNothing(dag, id) || (OnPath(dag.edges, id) && NodeOf(dag.nodes, id).value.process.FilterTemporal?))
  }

  lemma EditKeepsTyped(dag: Dag, edit: Edit, dag': Dag, served: Served)
    requires Typed(dag) && Edited(dag, edit, dag', served)
    ensures Typed(dag')
  {
    hide TakenOut, InsertedOn, JoinedByBranch, Joined, WellFormed, Reach, Typ, Insertable, FeedsNothing, OnPath;
    match edit
    case Insert(e, card) => InsertKeepsTyped(dag, dag', e, served, card);
    case InsertJoin(e, join, load, ndvi) => BranchedJoinTypes(dag, dag', e, join, load, ndvi);
    case Join(a, b, card) =>
      JoinKeepsTypes(dag, dag', a, b, card);
      JoinedGraph(dag, dag', a, b, card);
    case Remove(id) =>
      RemovalKeepsTypes(dag, dag', id);
      RemovedWellFormed(dag, dag', id);
  }

  lemma InsertKeepsTyped(dag: Dag, dag': Dag, e: Edge, served: Served, card: Node)
    requires Typed(dag) && InsertedOn(dag, dag', e, card) && Insertable(dag, e, served, card.id, card.process)
    ensures Typed(dag')
  {
    OfferedInsertTypes(dag, dag', e, served, card);
    InsertKeepsWellFormed(dag, dag', e, card);
  }

  lemma RemovedWellFormed(dag: Dag, dag': Dag, id: Id)
    requires TakenOut(dag, dag', id) && AllTyped(dag)
    ensures WellFormed(dag')
  {
    NodeOfIn(dag.nodes, id);
    if OnPath(dag.edges, id) { EndsApart(dag, dag', id); }
    hide AllTyped, Typ, OnPath, DropsCard;
    RemoveKeepsWellFormed(dag, dag', id);
  }

  /** A run: each graph is the one before, edited. */
  ghost predicate IsRun(dags: seq<Dag>, edits: seq<Edit>, served: Served) {
    |dags| == |edits| + 1 && forall i :: 0 <= i < |edits| ==> Stepped(dags, edits, i, served)
  }

  ghost predicate Stepped(dags: seq<Dag>, edits: seq<Edit>, i: nat, served: Served)
    requires i + 1 < |dags| && i < |edits|
  {
    Edited(dags[i], edits[i], dags[i + 1], served)
  }

  /** Whatever edits of these the panel makes, in whatever order, from a well-typed graph:
      every graph of the run is well-formed, acyclic and well typed. */
  lemma {:induction false} EveryRunTyped(dags: seq<Dag>, edits: seq<Edit>, served: Served, i: nat)
    requires IsRun(dags, edits, served) && Typed(dags[0]) && i < |dags|
    ensures Typed(dags[i]) && Acyclic(dags[i].edges)
  {
    hide Typed, Edited, Acyclic;
    if i > 0 {
      EveryRunTyped(dags, edits, served, i - 1);
      assert Stepped(dags, edits, i - 1, served);
      EditKeepsTyped(dags[i - 1], edits[i - 1], dags[i - 1 + 1], served);
    }
    TypedMeans(dags[i]);
  }

  lemma TypedMeans(dag: Dag)
    requires Typed(dag)
    ensures Acyclic(dag.edges)
  {
    TypedAcyclic(dag);
  }

  /** The panel's first pipeline, a load feeding the output, is such a graph. */
  lemma EmptyPipelineTyped(load: Node, save: Node, dag: Dag)
    requires load.process.LoadCollection? && save.process.SaveResult? && load.id != save.id
    requires dag == Dag([load, save], [Edge(PortRef(load.id, Out), PortRef(save.id, Data))])
    ensures Typed(dag)
  {
    Panel.EmptyPipeline(load, save, dag.edges[0]);
    assert [load, save][1..] == [save];
    FedBy(dag, dag.edges[0]);
    LoadRule(dag, load.id);
    hide WellFormed, Typ;
    OneInputRule(dag, save.id, Data);
  }
}
