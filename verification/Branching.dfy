/** What the panel's edits do to wiring, types and orphans of the whole graph. */
module Branching {
  import opened Wrappers
  import opened Stages
  import opened Graph
  import opened Paths
  import opened Typing
  import opened Output
  import opened Edits

  /** One more card, under a fresh id: every other id finds the node it found before. */
  ghost predicate AddsCard(nodes: seq<Node>, nodes': seq<Node>, card: Node) {
    NodeOf(nodes, card.id).None? && NodeOf(nodes', card.id) == Some(card) &&
    (forall x :: x != card.id ==> NodeOf(nodes', x) == NodeOf(nodes, x)) &&
    UniqueIds(nodes') && (forall n :: n in nodes' <==> n in nodes || n == card) &&
    (!card.process.SaveResult? ==> OutputNode(nodes') == OutputNode(nodes))
  }

  lemma FreshUnwired(dag: Dag, id: Id)
    requires (forall e :: e in dag.edges ==> EdgeFits(dag.nodes, e)) && NodeOf(dag.nodes, id).None?
    ensures Unwired(dag.edges, id)
  {
  }

  lemma StillFits(nodes: seq<Node>, nodes': seq<Node>, card: Node, e: Edge)
    requires AddsCard(nodes, nodes', card) && EdgeFits(nodes, e)
    ensures EdgeFits(nodes', e) && e.from.node != card.id && e.to.node != card.id
  {
  }

  /** Inserting a step on an edge keeps the wiring well-formed. */
  lemma InsertKeepsWellFormed(dag: Dag, dag': Dag, e: Edge, card: Node)
    requires WellFormed(dag) && AddsCard(dag.nodes, dag'.nodes, card) && e in dag.edges
    requires HasOutput(card.process) && Inputs(card.process) != []
    requires dag'.edges == InsertEdges(dag.edges, e, card.id, Inputs(card.process)[0])
    ensures WellFormed(dag') && Unwired(dag.edges, card.id)
  {
    hide InsertEdges, SingleFed, UniqueIds;
    var port := Inputs(card.process)[0];
    FreshUnwired(dag, card.id);
    hide AddsCard;
    AddedCard(dag.nodes, dag'.nodes, card);
    InsertKeepsSingleFed(dag.edges, e, card.id, port);
    InsertMembers(dag.edges, e, card.id, port);
    forall f | f in dag.edges
      ensures EdgeFits(dag'.nodes, f)
    {
      StillFits(dag.nodes, dag'.nodes, card, f);
    }
    assert EdgeFits(dag'.nodes, e);
    assert EdgeFits(dag'.nodes, IntoStep(e, card.id, port)) && EdgeFits(dag'.nodes, OutOfStep(e, card.id));
  }

  lemma AddedCard(nodes: seq<Node>, nodes': seq<Node>, card: Node)
    requires AddsCard(nodes, nodes', card)
    ensures NodeOf(nodes', card.id) == Some(card) && UniqueIds(nodes')
    ensures forall n :: n in nodes' <==> n in nodes || n == card
  {
  }

  /** The card is gone: every other id finds the node it found before. */
  ghost predicate DropsCard(nodes: seq<Node>, nodes': seq<Node>, id: Id) {
    NodeOf(nodes', id).None? && (forall x :: x != id ==> NodeOf(nodes', x) == NodeOf(nodes, x)) &&
    UniqueIds(nodes') && (forall n :: n in nodes' ==> n in nodes)
  }

  /** Removing a step keeps the wiring well-formed, except that a step whose one input and
      one output are the same edge leaves that edge behind. */
  lemma RemoveKeepsWellFormed(dag: Dag, dag': Dag, id: Id)
    requires WellFormed(dag) && DropsCard(dag.nodes, dag'.nodes, id) && dag'.edges == RemoveEdges(dag.edges, id)
    ensures WellFormed(dag') <==> !SelfFed(dag.edges, id)
  {
    RemoveKeepsSingleFed(dag.edges, id);
    RemoveMembers(dag.edges, id);
    if OnPath(dag.edges, id) {
      OnPathEdges(dag.edges, id);
      BridgeFits(dag, id);
    }
    hide SingleFed, UniqueIds, RemoveEdges, OnPath;
    if SelfFed(dag.edges, id) {
      assert Bridge(dag.edges, id) in dag'.edges && !EdgeFits(dag'.nodes, Bridge(dag.edges, id));
    } else {
      forall f | f in dag'.edges
        ensures EdgeFits(dag'.nodes, f)
      {
        if f in dag.edges {
          assert EdgeFits(dag.nodes, f);
        }
      }
    }
  }

  /** The bridge leaves an output and enters a named input, and touches the step only if the
      step feeds itself. */
  lemma BridgeFits(dag: Dag, id: Id)
    requires WellFormed(dag) && OnPath(dag.edges, id)
    ensures EdgeFits(dag.nodes, Bridge(dag.edges, id))
    ensures Bridge(dag.edges, id).from.node == id <==> SelfFed(dag.edges, id)
    ensures Bridge(dag.edges, id).to.node == id <==> SelfFed(dag.edges, id)
  {
    OnPathEdges(dag.edges, id);
    hide OnPath;
    assert EdgeFits(dag.nodes, Incoming(dag.edges, id)[0]) && EdgeFits(dag.nodes, Outgoing(dag.edges, id)[0]);
  }

  lemma SingleFedAppend(es: seq<Edge>, fs: seq<Edge>)
    requires SingleFed(es) && SingleFed(fs) && forall f, g :: f in es && g in fs ==> f.to != g.to
    ensures SingleFed(es + fs)
  {
  }

  lemma {:induction false} PartsSingleFed(es: seq<Edge>, a: Id)
    requires SingleFed(es)
    ensures SingleFed(NotFrom(es, a)) && SingleFed(Outgoing(es, a))
  {
    if es != [] {
      PartsSingleFed(es[1..], a);
      forall f | f in NotFrom(es[1..], a) || f in Outgoing(es[1..], a)
        ensures f.to != es[0].to
      {
        TouchMember(es[1..], a, f);
        var j :| 0 <= j < |es[1..]| && es[1..][j] == f;
        assert es[j + 1] == f;
      }
    }
  }

  lemma FromSingleFed(es: seq<Edge>, id: Id)
    requires SingleFed(es)
    ensures SingleFed(From(es, id))
  {
  }

  lemma JoinKeepsSingleFed(es: seq<Edge>, a: Id, b: Id, id: Id, first: Port, second: Port)
    requires SingleFed(es) && Unwired(es, id) && first != second
    ensures SingleFed(JoinEdges(es, a, b, id, first, second))
  {
    PartsSingleFed(es, a);
    FromSingleFed(Outgoing(es, a), id);
    forall f
      ensures f in NotFrom(es, a) <==> f in es && f.from.node != a
      ensures f in Outgoing(es, a) <==> f in es && f.from.node == a
    {
      TouchMember(es, a, f);
    }
    var kept, moved := NotFrom(es, a), From(Outgoing(es, a), id);
    var into := [Edge(PortRef(a, Out), PortRef(id, first)), Edge(PortRef(b, Out), PortRef(id, second))];
    forall f, g | f in kept && g in moved
      ensures f.to != g.to
    {
      FromMember(Outgoing(es, a), id, g);
      var h :| h in Outgoing(es, a) && g == OutOfStep(h, id);
      if f.to == h.to { SingleFedByMember(es, f, h); }
    }
    forall g | g in moved
      ensures g.to.node != id
    {
      FromMember(Outgoing(es, a), id, g);
    }
    hide SingleFed;
    assert SingleFed(into) by { IntoJoinSingleFed(a, b, id, first, second); }
    SingleFedAppend(kept, into);
    SingleFedAppend(kept + into, moved);
  }

  lemma IntoJoinSingleFed(a: Id, b: Id, id: Id, first: Port, second: Port)
    requires first != second
    ensures SingleFed([Edge(PortRef(a, Out), PortRef(id, first)), Edge(PortRef(b, Out), PortRef(id, second))])
  {
  }

  lemma JoinEdgeFits(dag: Dag, nodes': seq<Node>, a: Id, b: Id, card: Node, f: Edge)
    requires AddsCard(dag.nodes, nodes', card) && card.process.MergeCubes?
    requires forall e :: e in dag.edges ==> EdgeFits(dag.nodes, e)
    requires NodeOf(dag.nodes, a).Some? && HasOutput(NodeOf(dag.nodes, a).value.process)
    requires NodeOf(dag.nodes, b).Some? && HasOutput(NodeOf(dag.nodes, b).value.process)
    requires JoinMember(dag.edges, a, b, card.id, Cube1, Cube2, f)
    ensures EdgeFits(nodes', f)
  {
    hide UniqueIds, NodeOf, OutputNode;
    if f in dag.edges && f.from.node != a {
      StillFits(dag.nodes, nodes', card, f);
    } else if f != Edge(PortRef(a, Out), PortRef(card.id, Cube1)) &&
              f != Edge(PortRef(b, Out), PortRef(card.id, Cube2)) {
      var g :| g in dag.edges && g.from.node == a && f == OutOfStep(g, card.id);
      StillFits(dag.nodes, nodes', card, g);
    }
  }

  /** Joining two steps that have outputs keeps the wiring well-formed. */
  lemma JoinKeepsWellFormed(dag: Dag, dag': Dag, a: Id, b: Id, card: Node)
    requires WellFormed(dag) && AddsCard(dag.nodes, dag'.nodes, card) && card.process.MergeCubes?
    requires NodeOf(dag.nodes, a).Some? && HasOutput(NodeOf(dag.nodes, a).value.process)
    requires NodeOf(dag.nodes, b).Some? && HasOutput(NodeOf(dag.nodes, b).value.process)
    requires dag'.edges == JoinEdges(dag.edges, a, b, card.id, Cube1, Cube2)
    ensures WellFormed(dag') && Unwired(dag.edges, card.id) && a != card.id && b != card.id
  {
    FreshUnwired(dag, card.id);
    AddedCard(dag.nodes, dag'.nodes, card);
    hide JoinEdges, SingleFed, UniqueIds, EdgeFits, JoinMember, AddsCard;
    JoinKeepsSingleFed(dag.edges, a, b, card.id, Cube1, Cube2);
    JoinMembers(dag.edges, a, b, card.id, Cube1, Cube2);
    forall f | f in dag'.edges
      ensures EdgeFits(dag'.nodes, f)
    {
      JoinEdgeFits(dag, dag'.nodes, a, b, card, f);
    }
  }

  /** Two more cards, under fresh ids: every other id finds the node it found before. */
  ghost predicate AddsBranch(nodes: seq<Node>, nodes': seq<Node>, load: Node, ndvi: Node) {
    load.process.LoadCollection? && ndvi.process.Ndvi? && load.id != ndvi.id &&
    NodeOf(nodes, load.id).None? && NodeOf(nodes, ndvi.id).None? &&
    NodeOf(nodes', load.id) == Some(load) && NodeOf(nodes', ndvi.id) == Some(ndvi) &&
    (forall x :: x != load.id && x != ndvi.id ==> NodeOf(nodes', x) == NodeOf(nodes, x)) &&
    UniqueIds(nodes') && (forall n :: n in nodes' <==> n in nodes || n == load || n == ndvi)
  }

  lemma BranchEdgeFits(dag: Dag, nodes': seq<Node>, load: Node, ndvi: Node, id: Id, port: Port, f: Edge)
    requires AddsBranch(dag.nodes, nodes', load, ndvi)
    requires forall e :: e in dag.edges ==> EdgeFits(dag.nodes, e)
    requires NodeOf(dag.nodes, id).Some? && port in Inputs(NodeOf(dag.nodes, id).value.process)
    requires f in dag.edges || f == BranchIn(load.id, ndvi.id) || f == BranchOut(ndvi.id, id, port)
    ensures EdgeFits(nodes', f)
  {
    hide UniqueIds, NodeOf;
    if f in dag.edges {
      assert EdgeFits(dag.nodes, f);
    }
  }

  /** A new node feeding a free input of another keeps the wiring well-formed. */
  lemma BranchKeepsWellFormed(dag: Dag, dag': Dag, load: Node, ndvi: Node, id: Id, port: Port)
    requires WellFormed(dag) && AddsBranch(dag.nodes, dag'.nodes, load, ndvi)
    requires NodeOf(dag.nodes, id).Some? && port in Inputs(NodeOf(dag.nodes, id).value.process)
    requires Feeding(dag.edges, id, port).None?
    requires dag'.edges == BranchEdges(dag.edges, load.id, ndvi.id, id, port)
    ensures WellFormed(dag')
  {
    FreshUnwired(dag, ndvi.id);
    assert UniqueIds(dag'.nodes) && forall n :: n in dag'.nodes ==> Known(n.process);
    hide SingleFed, UniqueIds, BranchEdges, Feeding, NodeOf, EdgeFits, AddsBranch;
    BranchMembers(dag.edges, load.id, ndvi.id, id, port);
    BranchTarget(dag.nodes, dag'.nodes, load, ndvi, id);
    BranchedSingleFed(dag.edges, load.id, ndvi.id, id, port);
    forall f | f in dag'.edges
      ensures EdgeFits(dag'.nodes, f)
    {
      BranchEdgeFits(dag, dag'.nodes, load, ndvi, id, port, f);
    }
  }

  lemma BranchTarget(nodes: seq<Node>, nodes': seq<Node>, load: Node, ndvi: Node, id: Id)
    requires AddsBranch(nodes, nodes', load, ndvi) && NodeOf(nodes, id).Some?
    ensures id != load.id && id != ndvi.id
  {
  }

  lemma BranchedSingleFed(es: seq<Edge>, load: Id, ndvi: Id, id: Id, port: Port)
    requires SingleFed(es) && Unwired(es, ndvi) && Feeding(es, id, port).None? && id != ndvi
    ensures SingleFed(BranchEdges(es, load, ndvi, id, port))
  {
    SingleFedAppend(es, [BranchIn(load, ndvi), BranchOut(ndvi, id, port)]);
  }

  /** A branch keeps the graph acyclic exactly when it was: nothing leads into it. */
  lemma BranchKeepsAcyclic(es: seq<Edge>, load: Id, ndvi: Id, id: Id, port: Port)
    requires Unwired(es, load) && Unwired(es, ndvi) && load != ndvi && id != load && id != ndvi
    ensures Acyclic(BranchEdges(es, load, ndvi, id, port)) <==> Acyclic(es)
  {
    var one := es + [BranchIn(load, ndvi)];
    assert BranchEdges(es, load, ndvi, id, port) == one + [BranchOut(ndvi, id, port)];
    AcyclicAddEdge(es, BranchIn(load, ndvi));
    AcyclicAddEdge(one, BranchOut(ndvi, id, port));
    if Reach(es, ndvi, load) {
      var c := ReachFirst(es, ndvi, load);
    }
    ReachAddEdge(es, BranchIn(load, ndvi), id, ndvi);
    if Reach(es, id, ndvi) {
      var c := ReachLast(es, id, ndvi);
    }
    if Reach(es, id, load) {
      var c := ReachLast(es, id, load);
    }
  }

  /** Orphans are read off reachability to the output alone. */
  lemma OrphansFollowReach(dag: Dag, dag': Dag, x: Id)
    requires OutputNode(dag'.nodes) == OutputNode(dag.nodes)
    requires OutputNode(dag.nodes).Some? ==>
      (Reach(dag.edges, x, OutputNode(dag.nodes).value.id) ==> Reach(dag'.edges, x, OutputNode(dag.nodes).value.id))
    ensures IsOrphan(dag', x) ==> IsOrphan(dag, x)
  {
  }

  /** Insertion makes no old step an orphan and cures none; the new step is an orphan
      exactly when the edge's target was. */
  lemma InsertKeepsOrphans(dag: Dag, dag': Dag, e: Edge, card: Node, port: Port, x: Id)
    requires e in dag.edges && Unwired(dag.edges, card.id) && dag'.edges == InsertEdges(dag.edges, e, card.id, port)
    requires OutputNode(dag'.nodes) == OutputNode(dag.nodes)
    requires OutputNode(dag.nodes).Some? ==> OutputNode(dag.nodes).value.id != card.id
    ensures x != card.id ==> (IsOrphan(dag', x) <==> IsOrphan(dag, x))
    ensures OutputNode(dag.nodes).Some? ==>
      (IsOrphan(dag', card.id) <==> !Reach(dag.edges, e.to.node, OutputNode(dag.nodes).value.id))
  {
    hide InsertEdges, Reach;
    if OutputNode(dag.nodes).Some? {
      var out := OutputNode(dag.nodes).value.id;
      InsertedStepReach(dag.edges, e, card.id, port, out);
      if x != card.id {
        InsertKeepsReach(dag.edges, e, card.id, port, x, out);
      }
    }
  }

  /** Removing a one-in one-out step leaves the other steps' orphanhood as it was. */
  lemma RemoveKeepsOrphans(dag: Dag, dag': Dag, id: Id, x: Id)
    requires OnPath(dag.edges, id) && SingleFed(dag.edges) && dag'.edges == RemoveEdges(dag.edges, id)
    requires Incoming(dag.edges, id)[0].from.node != id && Outgoing(dag.edges, id)[0].from.port == Out
    requires OutputNode(dag'.nodes) == OutputNode(dag.nodes)
    requires OutputNode(dag.nodes).Some? ==> OutputNode(dag.nodes).value.id != id
    requires x != id
    ensures IsOrphan(dag', x) <==> IsOrphan(dag, x)
  {
    hide RemoveEdges, Reach, OnPath;
    if OutputNode(dag.nodes).Some? {
      RemoveKeepsReach(dag.edges, id, x, OutputNode(dag.nodes).value.id);
    }
  }

  /** Joining two steps makes no old step an orphan. */
  lemma JoinAddsNoOrphan(dag: Dag, dag': Dag, a: Id, b: Id, id: Id, first: Port, second: Port, x: Id)
    requires dag'.edges == JoinEdges(dag.edges, a, b, id, first, second)
    requires OutputNode(dag'.nodes) == OutputNode(dag.nodes)
    ensures IsOrphan(dag', x) ==> IsOrphan(dag, x)
  {
    OldPathsSurvive(dag.edges, a, b, id, first, second);
    OrphansFollowReach(dag, dag', x);
  }

  // ----- A join inserted, and its branch started -----

  /** The graph after a join is inserted on `e` and a load→NDVI branch started into its
      free input. */
  ghost predicate JoinedByBranch(dag: Dag, dag': Dag, e: Edge, join: Node, load: Node, ndvi: Node) {
    join.process.MergeCubes? && load.process.LoadCollection? && ndvi.process.Ndvi? &&
    join.id != load.id && join.id != ndvi.id && load.id != ndvi.id &&
    NodeOf(dag.nodes, join.id).None? && NodeOf(dag.nodes, load.id).None? && NodeOf(dag.nodes, ndvi.id).None? &&
    NodeOf(dag'.nodes, join.id) == Some(join) && NodeOf(dag'.nodes, load.id) == Some(load) &&
    NodeOf(dag'.nodes, ndvi.id) == Some(ndvi) &&
    (forall x :: x != join.id && x != load.id && x != ndvi.id ==> NodeOf(dag'.nodes, x) == NodeOf(dag.nodes, x)) &&
    (forall n :: n in dag'.nodes <==> n in dag.nodes || n == join || n == load || n == ndvi) &&
    UniqueIds(dag'.nodes) &&
    dag'.edges == BranchEdges(InsertEdges(dag.edges, e, join.id, Cube1), load.id, ndvi.id, join.id, Cube2)
  }

  function BranchIn(load: Id, ndvi: Id): Edge {
    Edge(PortRef(load, Out), PortRef(ndvi, Data))
  }

  function BranchOut(ndvi: Id, id: Id, port: Port): Edge {
    Edge(PortRef(ndvi, Out), PortRef(id, port))
  }

  lemma BranchMembers(es: seq<Edge>, load: Id, ndvi: Id, id: Id, port: Port)
    ensures forall f :: f in BranchEdges(es, load, ndvi, id, port) <==>
      f in es || f == BranchIn(load, ndvi) || f == BranchOut(ndvi, id, port)
  {
  }

  /** The edges after both edits. */
  lemma JoinedEdges(dag: Dag, dag': Dag, e: Edge, join: Node, load: Node, ndvi: Node)
    requires JoinedByBranch(dag, dag', e, join, load, ndvi)
    ensures forall f :: f in dag'.edges <==>
      (f in dag.edges && f != e) || f == IntoStep(e, join.id, Cube1) || f == OutOfStep(e, join.id) ||
      f == BranchIn(load.id, ndvi.id) || f == BranchOut(ndvi.id, join.id, Cube2)
  {
    hide InsertEdges, BranchEdges;
    InsertMembers(dag.edges, e, join.id, Cube1);
    BranchMembers(InsertEdges(dag.edges, e, join.id, Cube1), load.id, ndvi.id, join.id, Cube2);
  }

  /** Nodes the graph had are found as before, and are none of the new cards. */
  lemma OldNode(dag: Dag, dag': Dag, e: Edge, join: Node, load: Node, ndvi: Node, x: Id)
    requires JoinedByBranch(dag, dag', e, join, load, ndvi) && NodeOf(dag.nodes, x).Some?
    ensures x != join.id && x != load.id && x != ndvi.id && NodeOf(dag'.nodes, x) == NodeOf(dag.nodes, x)
  {
  }

  lemma OldFits(dag: Dag, dag': Dag, e: Edge, join: Node, load: Node, ndvi: Node, f: Edge)
    requires WellFormed(dag) && f in dag.edges && JoinedByBranch(dag, dag', e, join, load, ndvi)
    ensures EdgeFits(dag'.nodes, f)
  {
    assert EdgeFits(dag.nodes, f);
    hide WellFormed;
    OldNode(dag, dag', e, join, load, ndvi, f.from.node);
    OldNode(dag, dag', e, join, load, ndvi, f.to.node);
    hide JoinedByBranch, NodeOf;
  }

  lemma JoinedFits(dag: Dag, dag': Dag, e: Edge, join: Node, load: Node, ndvi: Node, f: Edge)
    requires WellFormed(dag) && e in dag.edges && JoinedByBranch(dag, dag', e, join, load, ndvi)
    requires f in dag'.edges
    ensures EdgeFits(dag'.nodes, f)
  {
    hide WellFormed, JoinedByBranch, NodeOf;
    JoinedEdges(dag, dag', e, join, load, ndvi);
    if f in dag.edges {
      OldFits(dag, dag', e, join, load, ndvi, f);
    } else {
      OldFits(dag, dag', e, join, load, ndvi, e);
      JoinedCards(dag, dag', e, join, load, ndvi);
    }
  }

  lemma JoinedWellFormed(dag: Dag, dag': Dag, e: Edge, join: Node, load: Node, ndvi: Node)
    requires WellFormed(dag) && e in dag.edges && JoinedByBranch(dag, dag', e, join, load, ndvi)
    ensures WellFormed(dag')
  {
    hide SingleFed, InsertEdges, BranchEdges, UniqueIds, EdgeFits;
    JoinedSingleFed(dag, dag', e, join, load, ndvi);
    forall f | f in dag'.edges
      ensures EdgeFits(dag'.nodes, f)
    {
      JoinedFits(dag, dag', e, join, load, ndvi, f);
    }
  }

  lemma JoinedSingleFed(dag: Dag, dag': Dag, e: Edge, join: Node, load: Node, ndvi: Node)
    requires WellFormed(dag) && e in dag.edges && JoinedByBranch(dag, dag', e, join, load, ndvi)
    ensures SingleFed(dag'.edges)
  {
    hide InsertEdges, UniqueIds;
    FreshUnwired(dag, join.id);
    FreshUnwired(dag, ndvi.id);
    BranchSingleFed(dag.edges, e, join.id, load.id, ndvi.id);
  }

  lemma BranchSingleFed(es: seq<Edge>, e: Edge, join: Id, load: Id, ndvi: Id)
    requires SingleFed(es) && e in es && Unwired(es, join) && Unwired(es, ndvi) && join != ndvi
    ensures SingleFed(BranchEdges(InsertEdges(es, e, join, Cube1), load, ndvi, join, Cube2))
  {
    hide InsertEdges;
    var ins := InsertEdges(es, e, join, Cube1);
    InsertKeepsSingleFed(es, e, join, Cube1);
    InsertMembers(es, e, join, Cube1);
    assert forall f :: f in ins ==> f.to.node != ndvi && f.to != PortRef(join, Cube2);
  }

  lemma FedBy(dag: Dag, f: Edge)
    requires SingleFed(dag.edges) && f in dag.edges
    ensures SourceOf(dag.edges, f.to.node, f.to.port) == Some(f.from.node)
  {
    FeedingUnique(dag.edges, f);
  }

  /** The feeds of the new cards. */
  lemma NewSources(dag: Dag, dag': Dag, e: Edge, join: Node, load: Node, ndvi: Node)
    requires WellFormed(dag) && e in dag.edges && JoinedByBranch(dag, dag', e, join, load, ndvi)
    ensures SourceOf(dag'.edges, ndvi.id, Data) == Some(load.id)
    ensures SourceOf(dag'.edges, join.id, Cube1) == Some(e.from.node)
    ensures SourceOf(dag'.edges, join.id, Cube2) == Some(ndvi.id)
  {
    JoinedSingleFed(dag, dag', e, join, load, ndvi);
    JoinedEdges(dag, dag', e, join, load, ndvi);
    hide SingleFed, JoinedByBranch, WellFormed;
    FedBy(dag', BranchIn(load.id, ndvi.id));
    FedBy(dag', BranchOut(ndvi.id, join.id, Cube2));
    FedBy(dag', IntoStep(e, join.id, Cube1));
  }

  lemma LoadAndNdviType(dag: Dag, load: Node, ndvi: Node)
    requires NodeOf(dag.nodes, load.id) == Some(load) && load.process.LoadCollection?
    requires NodeOf(dag.nodes, ndvi.id) == Some(ndvi) && ndvi.process.Ndvi?
    requires SourceOf(dag.edges, ndvi.id, Data) == Some(load.id)
    ensures Typ(dag, load.id) == Some(LOAD_STAGE) && Typ(dag, ndvi.id) == Some(Stage(Gray, false))
  {
    hide Typ, SourceOf;
    TypRule(dag, load.id);
    assert SourcesOf(dag.edges, load.id, []) == [] && TypsOf(dag, []) == [];
    StepWiring(dag, ndvi.id, Data);
    TypRule(dag, ndvi.id);
    assert TypsOf(dag, [Some(load.id)]) == [Typ(dag, load.id)];
  }

  lemma GrayJoinTypes(dag: Dag, join: Node, a: Id, b: Id)
    requires NodeOf(dag.nodes, join.id) == Some(join) && join.process.MergeCubes?
    requires SourceOf(dag.edges, join.id, Cube1) == Some(a) && SourceOf(dag.edges, join.id, Cube2) == Some(b)
    requires Typ(dag, a) == Some(Stage(Gray, false)) && Typ(dag, b) == Some(Stage(Gray, false))
    ensures Typ(dag, join.id) == Some(Stage(Gray, false))
  {
    hide Typ, SourceOf;
    JoinWiring(dag, join.id);
    TypRule(dag, join.id);
    assert TypsOf(dag, [Some(a), Some(b)]) == [Typ(dag, a), Typ(dag, b)];
  }

  /** The join and its branch type once the cube on the edge is gray and unscaled. */
  lemma JoinTypes(dag: Dag, dag': Dag, e: Edge, join: Node, load: Node, ndvi: Node)
    requires WellFormed(dag) && e in dag.edges && JoinedByBranch(dag, dag', e, join, load, ndvi)
    requires Typ(dag', e.from.node) == Some(Stage(Gray, false))
    ensures Typ(dag', load.id) == Some(LOAD_STAGE)
    ensures Typ(dag', ndvi.id) == Some(Stage(Gray, false)) && Typ(dag', join.id) == Some(Stage(Gray, false))
  {
    hide Typ, JoinedByBranch, WellFormed, SourceOf;
    NewSources(dag, dag', e, join, load, ndvi);
    JoinedCards(dag, dag', e, join, load, ndvi);
    LoadAndNdviType(dag', load, ndvi);
    GrayJoinTypes(dag', join, e.from.node, ndvi.id);
  }

  lemma JoinedCards(dag: Dag, dag': Dag, e: Edge, join: Node, load: Node, ndvi: Node)
    requires JoinedByBranch(dag, dag', e, join, load, ndvi)
    ensures NodeOf(dag'.nodes, join.id) == Some(join) && NodeOf(dag'.nodes, load.id) == Some(load)
    ensures NodeOf(dag'.nodes, ndvi.id) == Some(ndvi)
    ensures join.process.MergeCubes? && load.process.LoadCollection? && ndvi.process.Ndvi?
  {
  }

  /** An old step is fed as before, except that the edge's target is now fed by the join. */
  lemma OldSource(dag: Dag, dag': Dag, e: Edge, join: Node, load: Node, ndvi: Node, x: Id, port: Port)
    requires WellFormed(dag) && e in dag.edges && JoinedByBranch(dag, dag', e, join, load, ndvi)
    requires NodeOf(dag.nodes, x).Some?
    ensures SourceOf(dag'.edges, x, port)
         == if e.to == PortRef(x, port) then Some(join.id) else SourceOf(dag.edges, x, port)
  {
    hide JoinedByBranch, WellFormed, NodeOf, SingleFed;
    JoinedSingleFed(dag, dag', e, join, load, ndvi);
    if e.to == PortRef(x, port) {
      JoinedEdges(dag, dag', e, join, load, ndvi);
      FedBy(dag', OutOfStep(e, join.id));
    } else {
      OldTargets(dag, dag', e, join, load, ndvi, x, port);
      SameFeed(dag.edges, dag'.edges, x, port);
    }
  }

  lemma OldTargets(dag: Dag, dag': Dag, e: Edge, join: Node, load: Node, ndvi: Node, x: Id, port: Port)
    requires JoinedByBranch(dag, dag', e, join, load, ndvi)
    requires NodeOf(dag.nodes, x).Some? && e.to != PortRef(x, port)
    ensures forall f: Edge :: f.to == PortRef(x, port) ==> (f in dag.edges <==> f in dag'.edges)
  {
    OldNode(dag, dag', e, join, load, ndvi, x);
    JoinedEdges(dag, dag', e, join, load, ndvi);
    hide JoinedByBranch, NodeOf;
  }

  /** A port fed by the same edge in both graphs, or by none. */
  lemma SameFeed(es: seq<Edge>, es': seq<Edge>, x: Id, port: Port)
    requires SingleFed(es')
    requires forall f: Edge :: f.to == PortRef(x, port) ==> (f in es <==> f in es')
    ensures Feeding(es', x, port) == Feeding(es, x, port)
  {
    hide SingleFed;
    if Feeding(es, x, port).Some? {
      FeedingIn(es, x, port);
      FeedingUnique(es', Feeding(es, x, port).value);
    } else if Feeding(es', x, port).Some? {
      FeedingIn(es', x, port);
    }
  }

  /** Every typed old step keeps its type, by the height of its derivation. */
  lemma {:induction false} JoinKeepsType(dag: Dag, dag': Dag, e: Edge, join: Node, load: Node, ndvi: Node,
                                         k: nat, x: Id)
    requires WellFormed(dag) && e in dag.edges && JoinedByBranch(dag, dag', e, join, load, ndvi)
    requires Typ(dag, e.from.node) == Some(Stage(Gray, false)) && TypeIn(dag, k, x).Some?
    ensures Typ(dag', x) == TypeIn(dag, k, x)
    decreases k
  {
    hide WellFormed, JoinedByBranch, Typ, SourceOf, Wiring;
    RankedNode(dag, k, x);
    var w, w' := Wiring(dag, x).value, Wiring(dag', x);
    WiringAfterJoin(dag, dag', e, join, load, ndvi, x);
    var stages := StagesIn(dag, k - 1, w.sources);
    forall i | 0 <= i < |w.sources|
      ensures TypOf(dag', w'.value.sources[i]) == stages[i]
    {
      assert stages[i] in stages && stages[i] == StageIn(dag, k - 1, w.sources[i]);
      var y := w.sources[i].value;
      JoinKeepsType(dag, dag', e, join, load, ndvi, k - 1, y);
      if w'.value.sources[i] != w.sources[i] {
        TypAt(dag, k - 1, y);
        JoinTypes(dag, dag', e, join, load, ndvi);
      }
    }
    assert TypsOf(dag', w'.value.sources) == stages;
    TypRule(dag', x);
  }

  lemma RankedNode(dag: Dag, k: nat, x: Id)
    requires TypeIn(dag, k, x).Some?
    ensures k > 0 && NodeOf(dag.nodes, x).Some? && Wiring(dag, x).Some?
    ensures TypeIn(dag, k, x) == Apply(Wiring(dag, x).value.process, StagesIn(dag, k - 1, Wiring(dag, x).value.sources))
    ensures None !in StagesIn(dag, k - 1, Wiring(dag, x).value.sources)
  {
  }

  /** An old step's sources are the old ones, with the edge's source replaced by the join. */
  lemma WiringAfterJoin(dag: Dag, dag': Dag, e: Edge, join: Node, load: Node, ndvi: Node, x: Id)
    requires WellFormed(dag) && e in dag.edges && JoinedByBranch(dag, dag', e, join, load, ndvi)
    requires NodeOf(dag.nodes, x).Some?
    ensures Wiring(dag', x).Some? && Wiring(dag', x).value.process == Wiring(dag, x).value.process
    ensures var s, s' := Wiring(dag, x).value.sources, Wiring(dag', x).value.sources;
            |s'| == |s| && forall i :: 0 <= i < |s| ==>
              s'[i] == s[i] || (s[i] == Some(e.from.node) && s'[i] == Some(join.id))
  {
    OldNode(dag, dag', e, join, load, ndvi, x);
    var node := NodeOf(dag.nodes, x).value;
    assert NodeOf(dag'.nodes, x) == Some(node);
    FedBy(dag, e);
    hide WellFormed, JoinedByBranch;
    forall i | 0 <= i < |Inputs(node.process)|
      ensures var port := Inputs(node.process)[i];
              var s, s' := SourceOf(dag.edges, x, port), SourceOf(dag'.edges, x, port);
              s' == s || (s == Some(e.from.node) && s' == Some(join.id))
    {
      OldSource(dag, dag', e, join, load, ndvi, x, Inputs(node.process)[i]);
    }
  }

  /** Inserting a join on an edge that carries a gray, unscaled cube and starting a branch
      into its free input turns a well-typed graph into a well-typed one, every existing
      step keeping its type; it stays acyclic. */
  lemma BranchedJoinTypes(dag: Dag, dag': Dag, e: Edge, join: Node, load: Node, ndvi: Node)
    requires WellFormed(dag) && AllTyped(dag) && e in dag.edges && JoinedByBranch(dag, dag', e, join, load, ndvi)
    requires Typ(dag, e.from.node) == Some(Stage(Gray, false))
    ensures WellFormed(dag') && AllTyped(dag') && FeedAcyclic(dag')
    ensures forall n :: n in dag.nodes ==> Typ(dag', n.id) == Typ(dag, n.id)
    ensures Typ(dag', join.id) == Some(Stage(Gray, false))
  {
    hide TypeIn;
    JoinedWellFormed(dag, dag', e, join, load, ndvi);
    assert forall n :: n in dag'.nodes <==> n in dag.nodes || n == join || n == load || n == ndvi;
    hide WellFormed, JoinedByBranch;
    forall x | Typ(dag, x).Some?
      ensures Typ(dag', x) == Typ(dag, x)
    {
      var k := TypRank(dag, x);
      JoinKeepsType(dag, dag', e, join, load, ndvi, k, x);
    }
    JoinTypes(dag, dag', e, join, load, ndvi);
    hide Typ;
    WellTypedAcyclic(dag');
  }
}
