/** What removing a step does to the types of the others. */
module Removal {
  import opened Wrappers
  import opened Stages
  import opened Graph
  import opened Paths
  import opened Typing
  import opened Edits
  import opened Branching
  import opened Discipline

  /** A card taken out of a graph. */
  ghost predicate TakenOut(dag: Dag, dag': Dag, id: Id) {
    WellFormed(dag) && NodeOf(dag.nodes, id).Some? &&
    DropsCard(dag.nodes, dag'.nodes, id) && dag'.edges == RemoveEdges(dag.edges, id)
  }

  /** The step a one-in one-out card is fed by. */
  function Source(dag: Dag, id: Id): Id
    requires OnPath(dag.edges, id)
  {
    Incoming(dag.edges, id)[0].from.node
  }

  /** The step it feeds. */
  function Target(dag: Dag, id: Id): Id
    requires OnPath(dag.edges, id)
  {
    Outgoing(dag.edges, id)[0].to.node
  }

  /** What feeds, once the card is gone, the ports it fed: its source, if it has one input
      and one output, and otherwise nothing. */
  function StandIn(dag: Dag, id: Id): Option<Id> {
    if OnPath(dag.edges, id) then Some(Source(dag, id)) else None
  }

  predicate FeedsNothing(dag: Dag, id: Id) {
    forall e :: e in dag.edges ==> e.from.node != id
  }

  /** A typed card lies apart from what it is fed by and from what it feeds. */
  lemma EndsApart(dag: Dag, dag': Dag, id: Id)
    requires TakenOut(dag, dag', id) && OnPath(dag.edges, id) && Typ(dag, id).Some?
    ensures Linked(dag.edges, Source(dag, id), id) && Linked(dag.edges, id, Target(dag, id))
    ensures Source(dag, id) != id && Target(dag, id) != id
    ensures Typ(dag, Source(dag, id)).Some? && !Reach(dag.edges, id, Source(dag, id))
  {
    OnPathEdges(dag.edges, id);
    hide TakenOut, OnPath, Typ, Reach;
    ReachRefl(dag.edges, id);
    FeederApart(dag, dag', id, Source(dag, id));
    if Target(dag, id) == id { FeederApart(dag, dag', id, id); }
  }

  lemma FeederApart(dag: Dag, dag': Dag, id: Id, a: Id)
    requires TakenOut(dag, dag', id) && Typ(dag, id).Some? && Linked(dag.edges, a, id)
    ensures Typ(dag, a).Some? && !Reach(dag.edges, id, a)
  {
    FeederTyped(dag, a, id);
  }

  /** Every other step is fed as before, except that the ports the card fed have its
      stand-in. */
  lemma SourceAfter(dag: Dag, dag': Dag, id: Id, x: Id, port: Port)
    requires TakenOut(dag, dag', id) && x != id
    ensures SourceOf(dag'.edges, x, port)
         == if SourceOf(dag.edges, x, port) == Some(id) then StandIn(dag, id) else SourceOf(dag.edges, x, port)
  {
    if OnPath(dag.edges, id) {
      BridgedSource(dag, dag', id, x, port);
    } else {
      UnbridgedSource(dag, dag', id, x, port);
    }
  }

  lemma BridgedSource(dag: Dag, dag': Dag, id: Id, x: Id, port: Port)
    requires TakenOut(dag, dag', id) && x != id && OnPath(dag.edges, id)
    ensures SourceOf(dag'.edges, x, port)
         == if SourceOf(dag.edges, x, port) == Some(id) then Some(Source(dag, id)) else SourceOf(dag.edges, x, port)
  {
    hide WellFormed, DropsCard;
    var es, bridge := dag.edges, Bridge(dag.edges, id);
    OnPathEdges(es, id);
    RemoveMembers(es, id);
    assert SingleFed(es) && SingleFed(dag'.edges) by { RemovedSingleFed(dag, dag', id); }
    hide SingleFed, RemoveEdges;
    assert Outgoing(es, id)[0] in es;
    if Feeding(es, x, port).Some? {
      var f := Feeding(es, x, port).value;
      FeedingIn(es, x, port);
      FeedingUnique(dag'.edges, if f.from.node == id then bridge else f);
    } else if Feeding(dag'.edges, x, port).Some? {
      FeedingIn(dag'.edges, x, port);
    }
  }

  lemma UnbridgedSource(dag: Dag, dag': Dag, id: Id, x: Id, port: Port)
    requires TakenOut(dag, dag', id) && x != id && !OnPath(dag.edges, id)
    ensures SourceOf(dag'.edges, x, port)
         == if SourceOf(dag.edges, x, port) == Some(id) then None else SourceOf(dag.edges, x, port)
  {
    hide WellFormed, DropsCard, OnPath;
    var es := dag.edges;
    RemoveMembers(es, id);
    assert SingleFed(es) && SingleFed(dag'.edges) by { RemovedSingleFed(dag, dag', id); }
    hide RemoveEdges;
    if Feeding(es, x, port).Some? {
      var f := Feeding(es, x, port).value;
      FeedingIn(es, x, port);
      if f.from.node != id {
        FeedingUnique(dag'.edges, f);
      } else if Feeding(dag'.edges, x, port).Some? {
        FeedingIn(dag'.edges, x, port);
        SingleFedByMember(es, f, Feeding(dag'.edges, x, port).value);
      }
    } else if Feeding(dag'.edges, x, port).Some? {
      FeedingIn(dag'.edges, x, port);
    }
  }

  lemma RemovedSingleFed(dag: Dag, dag': Dag, id: Id)
    requires TakenOut(dag, dag', id)
    ensures SingleFed(dag.edges) && SingleFed(dag'.edges)
  {
    RemoveKeepsSingleFed(dag.edges, id);
  }

  lemma WiringAfter(dag: Dag, dag': Dag, id: Id, x: Id)
    requires TakenOut(dag, dag', id) && x != id && NodeOf(dag.nodes, x).Some?
    ensures Wiring(dag', x).Some? && Wiring(dag', x).value.process == Wiring(dag, x).value.process
    ensures var s, s' := Wiring(dag, x).value.sources, Wiring(dag', x).value.sources;
            |s'| == |s| && forall i :: 0 <= i < |s| ==> s'[i] == if s[i] == Some(id) then StandIn(dag, id) else s[i]
  {
    assert NodeOf(dag'.nodes, x) == NodeOf(dag.nodes, x);
    var ports := Inputs(NodeOf(dag.nodes, x).value.process);
    hide TakenOut, StandIn;
    forall i | 0 <= i < |ports|
      ensures SourceOf(dag'.edges, x, ports[i])
           == if SourceOf(dag.edges, x, ports[i]) == Some(id) then StandIn(dag, id)
              else SourceOf(dag.edges, x, ports[i])
    {
      SourceAfter(dag, dag', id, x, ports[i]);
    }
  }

  /** A typed date filter is wired to its source alone. */
  lemma FilterWiring(dag: Dag, dag': Dag, id: Id)
    requires TakenOut(dag, dag', id) && OnPath(dag.edges, id) && Typ(dag, id).Some?
    requires NodeOf(dag.nodes, id).value.process.FilterTemporal?
    ensures Source(dag, id) != id && Wiring(dag, id) == Some(Wire(FilterTemporal, [Some(Source(dag, id))]))
  {
    EndsApart(dag, dag', id);
    CardNeeds(dag, dag', id, Source(dag, id));
    hide TakenOut, OnPath, Typ, Reach, SourceOf, Source, Linked;
    StepWiring(dag, id, Data);
  }

  /** It passes the stage of its source on. */
  lemma FilterRanked(dag: Dag, dag': Dag, id: Id, k: nat)
    requires TakenOut(dag, dag', id) && OnPath(dag.edges, id) && TypeIn(dag, k, id).Some?
    requires NodeOf(dag.nodes, id).value.process.FilterTemporal?
    ensures Source(dag, id) != id
    ensures k > 0 && TypeIn(dag, k - 1, Source(dag, id)) == TypeIn(dag, k, id)
  {
    TypAt(dag, k, id);
    FilterWiring(dag, dag', id);
    hide TakenOut, Typ, OnPath, Source, Wiring, NodeOf;
    RankedNode(dag, k, id);
    assert StagesIn(dag, k - 1, [Some(Source(dag, id))]) == [TypeIn(dag, k - 1, Source(dag, id))];
  }

  lemma CardNeeds(dag: Dag, dag': Dag, id: Id, a: Id)
    requires TakenOut(dag, dag', id) && Linked(dag.edges, a, id)
    ensures Needs(dag, id, a)
  {
    LinkedNeeds(dag, id, a);
  }

  /** Taking a one-in one-out date filter out, every other typed step keeps its type. */
  lemma {:induction false} FilterRemoved(dag: Dag, dag': Dag, id: Id, k: nat, x: Id)
    requires TakenOut(dag, dag', id) && OnPath(dag.edges, id) && NodeOf(dag.nodes, id).value.process.FilterTemporal?
    requires x != id && TypeIn(dag, k, x).Some?
    ensures Typ(dag', x) == TypeIn(dag, k, x)
    decreases k, 1
  {
    hide TakenOut, Typ, Wiring, OnPath, NodeOf;
    RankedNode(dag, k, x);
    WiringAfter(dag, dag', id, x);
    var s, s' := Wiring(dag, x).value.sources, Wiring(dag', x).value.sources;
    var stages := StagesIn(dag, k - 1, s);
    forall i | 0 <= i < |s|
      ensures TypOf(dag', s'[i]) == stages[i]
    {
      assert stages[i] in stages && stages[i] == StageIn(dag, k - 1, s[i]);
      FilterRemovedSource(dag, dag', id, k - 1, s[i].value);
    }
    hide StageIn;
    assert TypsOf(dag', s') == stages;
    TypRule(dag', x);
  }

  lemma {:induction false} FilterRemovedSource(dag: Dag, dag': Dag, id: Id, k: nat, y: Id)
    requires TakenOut(dag, dag', id) && OnPath(dag.edges, id) && NodeOf(dag.nodes, id).value.process.FilterTemporal?
    requires TypeIn(dag, k, y).Some?
    ensures Typ(dag', if y == id then Source(dag, id) else y) == TypeIn(dag, k, y)
    decreases k, 2
  {
    hide TakenOut, Typ, TypeIn, OnPath, NodeOf, Source;
    if y == id {
      FilterRanked(dag, dag', id, k);
      FilterRemoved(dag, dag', id, k - 1, Source(dag, id));
    } else {
      FilterRemoved(dag, dag', id, k, y);
    }
  }

  /** No rule forgets the stage of an input: a step types the same only on the same
      stages. */
  lemma ApplyInjective(p: Process, s: seq<Option<Stage>>, t: seq<Option<Stage>>, i: nat)
    requires |s| == |Inputs(p)| && |t| == |s| && i < |s|
    requires Apply(p, s).Some? && Apply(p, t) == Apply(p, s)
    ensures s[i] == t[i]
  {
    assert s[i] in s && t[i] in t;
    assert i == 0 || i == 1;
  }

  /** Where the card's typed target keeps its type, and its source too, the card passed its
      source's stage on. */
  lemma PassedOn(dag: Dag, dag': Dag, id: Id)
    requires TakenOut(dag, dag', id) && OnPath(dag.edges, id)
    requires Typ(dag, Target(dag, id)).Some? && Typ(dag', Target(dag, id)) == Typ(dag, Target(dag, id))
    ensures Typ(dag, id).Some? && Typ(dag, id) == Typ(dag, Source(dag, id))
  {
    var t := Target(dag, id);
    assert Linked(dag.edges, id, t) by { OnPathEdges(dag.edges, id); }
    FeederTyped(dag, id, t);
    LinkedNeeds(dag, t, id);
    EndsApart(dag, dag', id);
    UpstreamKept(dag, dag', id, Source(dag, id));
    assert NodeOf(dag.nodes, t).Some?;
    var s := Wiring(dag, t).value.sources;
    hide TakenOut, Typ, OnPath, Reach, Linked, Apply, NodeOf, Source, Target;
    WiringAfter(dag, dag', id, t);
    hide Wiring;
    var s' := Wiring(dag', t).value.sources;
    TypRule(dag, t);
    TypRule(dag', t);
    var i :| 0 <= i < |s| && s[i] == Some(id);
    ApplyInjective(Wiring(dag, t).value.process, TypsOf(dag, s), TypsOf(dag', s'), i);
  }

  /** A typed step that passes its source's stage on and is one-in one-out is a date filter. */
  lemma PassingIsFilter(dag: Dag, dag': Dag, id: Id)
    requires TakenOut(dag, dag', id) && OnPath(dag.edges, id)
    requires Typ(dag, id).Some? && Typ(dag, id) == Typ(dag, Source(dag, id))
    ensures NodeOf(dag.nodes, id).value.process.FilterTemporal?
  {
    EndsApart(dag, dag', id);
    NoOutputUnlinked(dag, id, Target(dag, id));
    CardNeeds(dag, dag', id, Source(dag, id));
    var p := NodeOf(dag.nodes, id).value.process;
    if p.MergeCubes? { JoinTwiceFed(dag, id); }
    hide TakenOut, Typ, OnPath, Reach, Linked, Needs, Source, Target;
    SourceStage(dag, Source(dag, id), id);
  }

  lemma NoOutputUnlinked(dag: Dag, a: Id, b: Id)
    requires WellFormed(dag) && Linked(dag.edges, a, b)
    ensures NodeOf(dag.nodes, a).Some? && HasOutput(NodeOf(dag.nodes, a).value.process)
  {
  }

  /** A typed join is fed twice. */
  lemma JoinTwiceFed(dag: Dag, id: Id)
    requires NodeOf(dag.nodes, id).Some? && NodeOf(dag.nodes, id).value.process.MergeCubes? && Typ(dag, id).Some?
    ensures !OnPath(dag.edges, id)
  {
    JoinWiring(dag, id);
    TypRule(dag, id);
    var c, d := Feeding(dag.edges, id, Cube1), Feeding(dag.edges, id, Cube2);
    hide Typ;
    var sources := Wiring(dag, id).value.sources;
    assert TypsOf(dag, sources)[0] == TypOf(dag, sources[0]) && TypsOf(dag, sources)[1] == TypOf(dag, sources[1]);
    assert TypsOf(dag, sources)[0] in TypsOf(dag, sources) && TypsOf(dag, sources)[1] in TypsOf(dag, sources);
    FeedingIn(dag.edges, id, Cube1);
    FeedingIn(dag.edges, id, Cube2);
    if OnPath(dag.edges, id) { OnPathEdges(dag.edges, id); }
  }

  /** A step fed by a card that leaves no stand-in loses its type. */
  lemma UnbridgedTarget(dag: Dag, dag': Dag, id: Id, e: Edge)
    requires TakenOut(dag, dag', id) && !OnPath(dag.edges, id) && e in dag.edges && e.from.node == id
    requires e.to.node != id
    ensures NodeOf(dag.nodes, e.to.node).Some? && Typ(dag', e.to.node).None?
  {
    var t := e.to.node;
    assert EdgeFits(dag.nodes, e) && Linked(dag.edges, id, t);
    LinkedNeeds(dag, t, id);
    hide TakenOut, Typ, OnPath, Reach;
    WiringAfter(dag, dag', id, t);
    var s, s' := Wiring(dag, t).value.sources, Wiring(dag', t).value.sources;
    var i :| 0 <= i < |s| && s[i] == Some(id);
    TypRule(dag', t);
    assert TypsOf(dag', s')[i] == None;
    assert None in TypsOf(dag', s');
  }

  /** A card that feeds nothing leaves every other step's type alone. */
  lemma UnfedFromKept(dag: Dag, dag': Dag, id: Id, x: Id)
    requires TakenOut(dag, dag', id) && FeedsNothing(dag, id) && x != id
    ensures Typ(dag', x) == Typ(dag, x)
  {
    if Reach(dag.edges, id, x) {
      var c := ReachFirst(dag.edges, id, x);
    }
    UpstreamKept(dag, dag', id, x);
  }

  /** Removing a card from a well-typed graph leaves every other step's type unchanged exactly
      when it feeds nothing, or is a date filter with one input and one output; and the
      graph stays well typed then. */
  lemma RemovalKeepsTypes(dag: Dag, dag': Dag, id: Id)
    requires TakenOut(dag, dag', id) && AllTyped(dag)
    ensures FeedsNothing(dag, id) || (OnPath(dag.edges, id) && NodeOf(dag.nodes, id).value.process.FilterTemporal?) <==>
      (forall n :: n in dag.nodes && n.id != id ==> Typ(dag', n.id) == Typ(dag, n.id))
    ensures (forall n :: n in dag.nodes && n.id != id ==> Typ(dag', n.id) == Typ(dag, n.id)) ==> AllTyped(dag')
  {
    hide Typ, OnPath, RemoveEdges;
    OthersLeft(dag.nodes, dag'.nodes, id);
    if FeedsNothing(dag, id) {
      forall x | x != id
        ensures Typ(dag', x) == Typ(dag, x)
      {
        UnfedFromKept(dag, dag', id, x);
      }
    } else if OnPath(dag.edges, id) && NodeOf(dag.nodes, id).value.process.FilterTemporal? {
      forall n | n in dag.nodes && n.id != id
        ensures Typ(dag', n.id) == Typ(dag, n.id)
      {
        var k := TypRank(dag, n.id);
        FilterRemoved(dag, dag', id, k, n.id);
      }
    } else {
      var t := TargetChanges(dag, dag', id);
    }
  }

  /** Taken out otherwise, the card leaves a step with another type. */
  lemma TargetChanges(dag: Dag, dag': Dag, id: Id) returns (t: Node)
    requires TakenOut(dag, dag', id) && AllTyped(dag) && !FeedsNothing(dag, id)
    requires !(OnPath(dag.edges, id) && NodeOf(dag.nodes, id).value.process.FilterTemporal?)
    ensures t in dag.nodes && t.id != id && Typ(dag', t.id) != Typ(dag, t.id)
  {
    var e :| e in dag.edges && e.from.node == id;
    assert EdgeFits(dag.nodes, e) && Linked(dag.edges, id, e.to.node);
    t := NodeOf(dag.nodes, e.to.node).value;
    NodeOfIn(dag.nodes, e.to.node);
    hide Typ, Linked, DropsCard, RemoveEdges;
    FeederTyped(dag, id, t.id);
    ReachRefl(dag.edges, id);
    if !OnPath(dag.edges, id) {
      UnbridgedTarget(dag, dag', id, e);
    } else if Typ(dag', t.id) == Typ(dag, t.id) {
      OnPathEdges(dag.edges, id);
      PassedOn(dag, dag', id);
      PassingIsFilter(dag, dag', id);
    }
  }

  lemma OthersLeft(nodes: seq<Node>, nodes': seq<Node>, id: Id)
    requires DropsCard(nodes, nodes', id)
    ensures forall n :: n in nodes' ==> n in nodes && n.id != id
  {
  }

  /** Every step the removed one does not lead to keeps its type. */
  lemma UpstreamKept(dag: Dag, dag': Dag, id: Id, x: Id)
    requires TakenOut(dag, dag', id) && !Reach(dag.edges, id, x)
    ensures Typ(dag', x) == Typ(dag, x)
  {
    hide TakenOut, Typ, OnPath, Wiring;
    var s := Unled(dag.edges, id);
    forall y | y in s
      ensures Wiring(dag', y) == Wiring(dag, y)
    {
      UnledWiring(dag, dag', id, y);
    }
    forall y, z | y in s && Needs(dag, y, z)
      ensures z in s
    {
      NeedsLinked(dag, y, z);
      UnledSource(dag.edges, id, z, y);
    }
    TypCongruence(dag, dag', s, x);
  }

  /** The ids the step does not lead to. */
  ghost function Unled(es: seq<Edge>, id: Id): (s: iset<Id>)
    ensures forall x :: x in s <==> !Reach(es, id, x)
  {
    iset x | !Reach(es, id, x)
  }

  lemma UnledSource(es: seq<Edge>, id: Id, z: Id, y: Id)
    requires Linked(es, z, y) && !Reach(es, id, y)
    ensures !Reach(es, id, z)
  {
    ReachLink(es, z, y);
    if Reach(es, id, z) { ReachTrans(es, id, z, y); }
  }

  lemma UnledWiring(dag: Dag, dag': Dag, id: Id, y: Id)
    requires TakenOut(dag, dag', id) && !Reach(dag.edges, id, y)
    ensures Wiring(dag', y) == Wiring(dag, y)
  {
    ReachRefl(dag.edges, id);
    assert NodeOf(dag'.nodes, y) == NodeOf(dag.nodes, y);
    hide TakenOut, OnPath, Reach, Feeding;
    forall port
      ensures SourceOf(dag'.edges, y, port) == SourceOf(dag.edges, y, port)
    {
      SourceAfter(dag, dag', id, y, port);
      if SourceOf(dag.edges, y, port) == Some(id) {
        FeedingIn(dag.edges, y, port);
        ReachLink(dag.edges, id, y);
      }
    }
    SameSources(dag, dag', y);
  }

  /** Taking a typed reducing step out before a join leaves the join without a type. */
  lemma ReduceBeforeJoin(dag: Dag, dag': Dag, id: Id)
    requires TakenOut(dag, dag', id) && OnPath(dag.edges, id) && Typ(dag, id).Some?
    requires Reducing(NodeOf(dag.nodes, id).value.process)
    requires NodeOf(dag.nodes, Target(dag, id)).Some? && NodeOf(dag.nodes, Target(dag, id)).value.process.MergeCubes?
    ensures Typ(dag', Target(dag, id)).None? && !AllTyped(dag')
  {
    var a, t := Source(dag, id), Target(dag, id);
    EndsApart(dag, dag', id);
    CardNeeds(dag, dag', id, a);
    UpstreamKept(dag, dag', id, a);
    LinkedNeeds(dag, t, id);
    assert NodeOf(dag'.nodes, t) == NodeOf(dag.nodes, t);
    NodeOfIn(dag'.nodes, t);
    hide TakenOut, Typ, OnPath, Reach, Linked, Source, Target;
    SourceStage(dag, a, id);
    WiringAfter(dag, dag', id, t);
    var s, s' := Wiring(dag, t).value.sources, Wiring(dag', t).value.sources;
    var i :| 0 <= i < |s| && s[i] == Some(id);
    assert s'[i] == Some(a);
    assert Needs(dag', t, a);
    if Typ(dag', t).Some? { JoinRule(dag', a, t); }
  }
}
