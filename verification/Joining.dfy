/** What joining two steps does to types: when the join types, and who keeps theirs. */
module Joining {
  import opened Wrappers
  import opened Stages
  import opened Graph
  import opened Paths
  import opened Typing
  import opened Edits
  import opened Branching
  import opened Discipline

  const GRAY := Some(Stage(Gray, false))

  /** Two distinct steps with outputs, joined. */
  ghost predicate Joined(dag: Dag, dag': Dag, a: Id, b: Id, card: Node) {
    WellFormed(dag) && a != b &&
    NodeOf(dag.nodes, a).Some? && HasOutput(NodeOf(dag.nodes, a).value.process) &&
    NodeOf(dag.nodes, b).Some? && HasOutput(NodeOf(dag.nodes, b).value.process) &&
    card.process.MergeCubes? && AddsCard(dag.nodes, dag'.nodes, card) &&
    dag'.edges == JoinEdges(dag.edges, a, b, card.id, Cube1, Cube2)
  }

  lemma JoinedGraph(dag: Dag, dag': Dag, a: Id, b: Id, card: Node)
    requires Joined(dag, dag', a, b, card)
    ensures WellFormed(dag') && SingleFed(dag.edges) && SingleFed(dag'.edges) && Unwired(dag.edges, card.id)
    ensures a != card.id && b != card.id
    ensures NodeOf(dag'.nodes, card.id) == Some(card) && NodeOf(dag.nodes, card.id).None?
    ensures forall f :: f in dag'.edges <==> JoinMember(dag.edges, a, b, card.id, Cube1, Cube2, f)
  {
    JoinKeepsWellFormed(dag, dag', a, b, card);
    hide JoinEdges, EdgeFits, UniqueIds, SingleFed, AllTyped, JoinMember, Unwired;
    JoinMembers(dag.edges, a, b, card.id, Cube1, Cube2);
  }

  /** The join is fed by the two steps; every other step as before, except that what the
      first step fed is now fed by the join. */
  lemma SourceJoined(dag: Dag, dag': Dag, a: Id, b: Id, card: Node, x: Id, port: Port)
    requires Joined(dag, dag', a, b, card) && x != card.id
    ensures SourceOf(dag'.edges, x, port)
         == if SourceOf(dag.edges, x, port) == Some(a) then Some(card.id) else SourceOf(dag.edges, x, port)
  {
    JoinedGraph(dag, dag', a, b, card);
    hide Joined, WellFormed, SingleFed, NodeOf, Unwired;
    var es := dag.edges;
    if Feeding(es, x, port).Some? {
      var f := Feeding(es, x, port).value;
      FeedingIn(es, x, port);
      var f' := if f.from.node == a then OutOfStep(f, card.id) else f;
      assert JoinMember(es, a, b, card.id, Cube1, Cube2, f');
      FeedingUnique(dag'.edges, f');
    } else if Feeding(dag'.edges, x, port).Some? {
      FeedingIn(dag'.edges, x, port);
      var g := OldFeed(es, a, b, card.id, Feeding(dag'.edges, x, port).value);
    }
  }

  /** What feeds an old step's port was an old edge into it, or stands in for one. */
  lemma OldFeed(es: seq<Edge>, a: Id, b: Id, id: Id, f: Edge) returns (g: Edge)
    requires JoinMember(es, a, b, id, Cube1, Cube2, f) && f.to.node != id
    ensures g in es && g.to == f.to
  {
    if f in es {
      g := f;
    } else {
      g :| g in es && g.from.node == a && f == OutOfStep(g, id);
    }
  }

  lemma JoinSources(dag: Dag, dag': Dag, a: Id, b: Id, card: Node)
    requires Joined(dag, dag', a, b, card)
    ensures SourceOf(dag'.edges, card.id, Cube1) == Some(a) && SourceOf(dag'.edges, card.id, Cube2) == Some(b)
  {
    JoinedGraph(dag, dag', a, b, card);
    hide Joined, WellFormed, SingleFed;
    var one, two := Edge(PortRef(a, Out), PortRef(card.id, Cube1)), Edge(PortRef(b, Out), PortRef(card.id, Cube2));
    assert JoinMember(dag.edges, a, b, card.id, Cube1, Cube2, one);
    assert JoinMember(dag.edges, a, b, card.id, Cube1, Cube2, two);
    FeedingUnique(dag'.edges, one);
    FeedingUnique(dag'.edges, two);
  }

  lemma WiringJoined(dag: Dag, dag': Dag, a: Id, b: Id, card: Node, x: Id)
    requires Joined(dag, dag', a, b, card) && NodeOf(dag.nodes, x).Some?
    ensures Wiring(dag', x).Some? && Wiring(dag', x).value.process == Wiring(dag, x).value.process
    ensures var s, s' := Wiring(dag, x).value.sources, Wiring(dag', x).value.sources;
            |s'| == |s| && forall i :: 0 <= i < |s| ==> s'[i] == if s[i] == Some(a) then Some(card.id) else s[i]
  {
    hide Joined, Feeding, NodeOf;
    NodeKept(dag, dag', a, b, card, x);
    var ports := Inputs(NodeOf(dag.nodes, x).value.process);
    forall i | 0 <= i < |ports|
      ensures SourceOf(dag'.edges, x, ports[i])
           == if SourceOf(dag.edges, x, ports[i]) == Some(a) then Some(card.id) else SourceOf(dag.edges, x, ports[i])
    {
      SourceJoined(dag, dag', a, b, card, x, ports[i]);
    }
  }

  lemma NodeKept(dag: Dag, dag': Dag, a: Id, b: Id, card: Node, x: Id)
    requires Joined(dag, dag', a, b, card) && NodeOf(dag.nodes, x).Some?
    ensures x != card.id && NodeOf(dag'.nodes, x) == NodeOf(dag.nodes, x)
  {
  }

  // ----- The steps the first one does not feed -----

  /** The ids other than the join's that nothing the first step feeds leads to. */
  ghost function Beside(es: seq<Edge>, a: Id, id: Id): (s: iset<Id>)
    ensures forall x :: x in s <==> x != id && !FedReaches(es, a, x)
  {
    iset x | x != id && !FedReaches(es, a, x)
  }

  lemma BesideWiring(dag: Dag, dag': Dag, a: Id, b: Id, card: Node, x: Id)
    requires Joined(dag, dag', a, b, card) && x in Beside(dag.edges, a, card.id)
    ensures Wiring(dag', x) == Wiring(dag, x)
  {
    assert NodeOf(dag'.nodes, x) == NodeOf(dag.nodes, x);
    hide Joined, Feeding;
    forall port
      ensures SourceOf(dag'.edges, x, port) == SourceOf(dag.edges, x, port)
    {
      SourceJoined(dag, dag', a, b, card, x, port);
      if SourceOf(dag.edges, x, port) == Some(a) {
        FeedingIn(dag.edges, x, port);
        ReachRefl(dag.edges, x);
      }
    }
    SameSources(dag, dag', x);
  }

  lemma BesideSource(dag: Dag, a: Id, id: Id, y: Id, z: Id)
    requires Unwired(dag.edges, id) && y in Beside(dag.edges, a, id) && Needs(dag, y, z)
    ensures z in Beside(dag.edges, a, id)
  {
    NeedsLinked(dag, y, z);
    ReachLink(dag.edges, z, y);
    if FedReaches(dag.edges, a, z) {
      var g :| g in dag.edges && g.from.node == a && Reach(dag.edges, g.to.node, z);
      ReachTrans(dag.edges, g.to.node, z, y);
    }
  }

  /** Whatever nothing the first step feeds leads to keeps its type. */
  lemma BesideKept(dag: Dag, dag': Dag, a: Id, b: Id, card: Node, x: Id)
    requires Joined(dag, dag', a, b, card) && x in Beside(dag.edges, a, card.id)
    ensures Typ(dag', x) == Typ(dag, x)
  {
    JoinedGraph(dag, dag', a, b, card);
    hide Joined, Wiring, Typ, WellFormed, FedReaches;
    var s := Beside(dag.edges, a, card.id);
    forall y | y in s
      ensures Wiring(dag', y) == Wiring(dag, y)
    {
      BesideWiring(dag, dag', a, b, card, y);
    }
    forall y, z | y in s && Needs(dag, y, z)
      ensures z in s
    {
      BesideSource(dag, a, card.id, y, z);
    }
    TypCongruence(dag, dag', s, x);
  }

  /** A step that what it feeds leads back to has no type, before joining or after. */
  lemma FirstOnCycle(dag: Dag, dag': Dag, a: Id, b: Id, card: Node)
    requires Joined(dag, dag', a, b, card) && FedReaches(dag.edges, a, a)
    ensures Typ(dag, a).None? && Typ(dag', a).None?
  {
    JoinedGraph(dag, dag', a, b, card);
    var g :| g in dag.edges && g.from.node == a && Reach(dag.edges, g.to.node, a);
    hide Typ, WellFormed, JoinEdges, NodeOf;
    if Typ(dag, a).Some? { TypedOffCycle(dag, g); }
    if Typ(dag', a).Some? {
      FromJoin(dag.edges, a, b, card.id, Cube1, Cube2, a);
      var into := Edge(PortRef(a, Out), PortRef(card.id, Cube1));
      assert JoinMember(dag.edges, a, b, card.id, Cube1, Cube2, into);
      TypedOffCycle(dag', into);
    }
  }

  /** Joining leaves the types of the two steps joined alone, unless the first leads to the
      second. */
  lemma EndsKept(dag: Dag, dag': Dag, a: Id, b: Id, card: Node)
    requires Joined(dag, dag', a, b, card) && !Reach(dag.edges, a, b)
    ensures Typ(dag', a) == Typ(dag, a) && Typ(dag', b) == Typ(dag, b)
  {
    JoinedGraph(dag, dag', a, b, card);
    hide Joined, Typ, WellFormed;
    if FedReaches(dag.edges, a, b) { FedReachesIsReach(dag.edges, a, b); }
    BesideKept(dag, dag', a, b, card, b);
    if FedReaches(dag.edges, a, a) {
      FirstOnCycle(dag, dag', a, b, card);
    } else {
      BesideKept(dag, dag', a, b, card, a);
    }
  }

  /** A typed join takes gray unscaled cubes from both steps, and leads to neither. */
  lemma JoinTakes(dag: Dag, dag': Dag, a: Id, b: Id, card: Node)
    requires Joined(dag, dag', a, b, card) && Typ(dag', card.id).Some?
    ensures Typ(dag', a) == Typ(dag', b) == Typ(dag', card.id) == GRAY && !Reach(dag.edges, a, b)
  {
    JoinedGraph(dag, dag', a, b, card);
    JoinSources(dag, dag', a, b, card);
    assert card.process.MergeCubes?;
    assert a != b && dag'.edges == JoinEdges(dag.edges, a, b, card.id, Cube1, Cube2);
    hide Joined, WellFormed, Typ, SourceOf, Reach, JoinEdges, NodeOf;
    JoinWiring(dag', card.id);
    assert Wiring(dag', card.id).value.sources[0] == Some(a) && Wiring(dag', card.id).value.sources[1] == Some(b);
    JoinRule(dag', a, card.id);
    JoinRule(dag', b, card.id);
    if Reach(dag.edges, a, b) {
      var t := ReachFirst(dag.edges, a, b);
      assert FedReaches(dag.edges, a, b);
      FromJoin(dag.edges, a, b, card.id, Cube1, Cube2, b);
      var into := Edge(PortRef(b, Out), PortRef(card.id, Cube2));
      assert JoinMember(dag.edges, a, b, card.id, Cube1, Cube2, into);
      TypedOffCycle(dag', into);
    }
  }

  /** The join types exactly when both steps carry a gray, unscaled cube and the first does
      not lead to the second. */
  lemma JoinTypesWhen(dag: Dag, dag': Dag, a: Id, b: Id, card: Node)
    requires Joined(dag, dag', a, b, card)
    ensures Typ(dag', card.id).Some? <==> !Reach(dag.edges, a, b) && Typ(dag, a) == GRAY && Typ(dag, b) == GRAY
    ensures Typ(dag', card.id).Some? ==> Typ(dag', card.id) == GRAY
  {
    JoinedGraph(dag, dag', a, b, card);
    JoinSources(dag, dag', a, b, card);
    assert card.process.MergeCubes?;
    hide Joined, WellFormed, Typ, SourceOf, Reach;
    if Typ(dag', card.id).Some? { JoinTakes(dag, dag', a, b, card); }
    if !Reach(dag.edges, a, b) {
      EndsKept(dag, dag', a, b, card);
      if Typ(dag, a) == GRAY && Typ(dag, b) == GRAY {
        GrayJoinTypes(dag', card, a, b);
      }
    }
  }

  /** Two gray, unscaled cubes joined without closing a loop. */
  ghost predicate JoinedGray(dag: Dag, dag': Dag, a: Id, b: Id, card: Node) {
    Joined(dag, dag', a, b, card) && !Reach(dag.edges, a, b) && Typ(dag, a) == GRAY && Typ(dag, b) == GRAY
  }

  lemma {:induction false} StepKept(dag: Dag, dag': Dag, a: Id, b: Id, card: Node, k: nat, x: Id)
    requires JoinedGray(dag, dag', a, b, card) && TypeIn(dag, k, x).Some?
    ensures Typ(dag', x) == TypeIn(dag, k, x)
    decreases k, 1
  {
    hide Joined, Typ, Wiring, NodeOf, Reach;
    RankedNode(dag, k, x);
    WiringJoined(dag, dag', a, b, card, x);
    var s, s' := Wiring(dag, x).value.sources, Wiring(dag', x).value.sources;
    var stages := StagesIn(dag, k - 1, s);
    forall i | 0 <= i < |s|
      ensures TypOf(dag', s'[i]) == stages[i]
    {
      assert stages[i] in stages && stages[i] == StageIn(dag, k - 1, s[i]);
      SourceKept(dag, dag', a, b, card, k - 1, s[i].value);
    }
    hide StageIn;
    assert TypsOf(dag', s') == stages;
    TypRule(dag', x);
  }

  lemma {:induction false} SourceKept(dag: Dag, dag': Dag, a: Id, b: Id, card: Node, k: nat, y: Id)
    requires JoinedGray(dag, dag', a, b, card) && TypeIn(dag, k, y).Some?
    ensures Typ(dag', if y == a then card.id else y) == TypeIn(dag, k, y)
    decreases k, 2
  {
    hide Joined, Typ, TypeIn, Reach;
    if y == a {
      TypAt(dag, k, a);
      JoinTypesWhen(dag, dag', a, b, card);
    } else {
      StepKept(dag, dag', a, b, card, k, y);
    }
  }

  /** Then every typed old step keeps its type. */
  lemma TypedKept(dag: Dag, dag': Dag, a: Id, b: Id, card: Node, x: Id)
    requires JoinedGray(dag, dag', a, b, card) && Typ(dag, x).Some?
    ensures Typ(dag', x) == Typ(dag, x)
  {
    hide JoinedGray, Typ;
    var k := TypRank(dag, x);
    StepKept(dag, dag', a, b, card, k, x);
  }

  /** Joining two distinct steps of a well-typed graph leaves it well typed exactly when both
      carry a gray, unscaled cube and the first does not lead to the second; every old step
      then keeps its type. */
  lemma JoinKeepsTypes(dag: Dag, dag': Dag, a: Id, b: Id, card: Node)
    requires Joined(dag, dag', a, b, card) && AllTyped(dag)
    ensures AllTyped(dag') <==> !Reach(dag.edges, a, b) && Typ(dag, a) == GRAY && Typ(dag, b) == GRAY
    ensures AllTyped(dag') ==> forall n :: n in dag.nodes ==> Typ(dag', n.id) == Typ(dag, n.id)
  {
    JoinedGraph(dag, dag', a, b, card);
    JoinTypesWhen(dag, dag', a, b, card);
    NodeOfIn(dag'.nodes, card.id);
    assert forall n :: n in dag'.nodes <==> n in dag.nodes || n == card;
    hide Joined, WellFormed, Typ, Reach;
    if JoinedGray(dag, dag', a, b, card) {
      forall n | n in dag.nodes
        ensures Typ(dag', n.id) == Typ(dag, n.id)
      {
        TypedKept(dag, dag', a, b, card, n.id);
      }
    }
  }
}
