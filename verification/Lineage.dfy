/** Typing without stages: what a step's type says of the steps its cube has passed, and which
    graphs are well typed, read off their steps alone. */
module Lineage {
  import opened Wrappers
  import opened Stages
  import opened Graph
  import opened Paths
  import opened Typing
  import opened Ordering
  import opened Layout
  import opened Discipline

  /** What a step leaves on the cube. */
  datatype Mark = Grayed | Computed | Scaled

  predicate Leaves(p: Process, mark: Mark) {
    match mark
    case Grayed => p == Ndvi || p == ReduceDimension || p == MergeCubes
    case Computed => p == RunUdf
    case Scaled => p == LinearScaleRange
  }

  predicate LeavesAt(dag: Dag, id: Id, mark: Mark) {
    NodeOf(dag.nodes, id).Some? && Leaves(NodeOf(dag.nodes, id).value.process, mark)
  }

  /** The cube at `x` has passed a step that leaves the mark: one that leads to `x`, or `x`
      itself. */
  ghost predicate Passed(dag: Dag, x: Id, mark: Mark) {
    exists y :: Reach(dag.edges, y, x) && LeavesAt(dag, y, mark)
  }

  lemma PassedStep(dag: Dag, x: Id, mark: Mark)
    requires WellFormed(dag)
    ensures Passed(dag, x, mark) <==> LeavesAt(dag, x, mark) || exists y :: Needs(dag, x, y) && Passed(dag, y, mark)
  {
    hide WellFormed, Needs, LeavesAt, Reach;
    ReachRefl(dag.edges, x);
    if Passed(dag, x, mark) && !LeavesAt(dag, x, mark) {
      var z :| Reach(dag.edges, z, x) && LeavesAt(dag, z, mark);
      var y := ReachLast(dag.edges, z, x);
      LinkedNeeds(dag, x, y);
      assert Passed(dag, y, mark);
    }
    forall y | Needs(dag, x, y) && Passed(dag, y, mark)
      ensures Passed(dag, x, mark)
    {
      PassedOnward(dag, x, y, mark);
    }
  }

  lemma PassedOnward(dag: Dag, x: Id, y: Id, mark: Mark)
    requires Needs(dag, x, y) && Passed(dag, y, mark)
    ensures Passed(dag, x, mark)
  {
    hide LeavesAt, Reach, Needs;
    var z :| Reach(dag.edges, z, y) && LeavesAt(dag, z, mark);
    NeedsLinked(dag, x, y);
    ReachLink(dag.edges, y, x);
    ReachTrans(dag.edges, z, y, x);
  }

  // ----- A type says what was passed -----

  /** The kind and scale of a stage are the marks the cube has passed. */
  ghost predicate Tells(dag: Dag, x: Id, s: Stage) {
    (s.kind == Gray <==> Passed(dag, x, Grayed)) && (s.kind == Udf <==> Passed(dag, x, Computed)) &&
    (s.scaled <==> Passed(dag, x, Scaled))
  }

  /** A typed step's cube is gray exactly when it has passed an NDVI, a formula or a join, a UDF
      result exactly when it has passed a UDF, and scaled exactly when it has passed a scale. */
  lemma TypeTells(dag: Dag, x: Id)
    requires WellFormed(dag) && Typ(dag, x).Some?
    ensures Tells(dag, x, Typ(dag, x).value)
  {
    hide Typ, Tells, WellFormed;
    var k := TypRank(dag, x);
    RankTells(dag, k, x);
  }

  lemma {:induction false} RankTells(dag: Dag, k: nat, x: Id)
    requires WellFormed(dag) && TypeIn(dag, k, x).Some?
    ensures Tells(dag, x, TypeIn(dag, k, x).value)
    decreases k
  {
    hide WellFormed, Typ, TypeIn, Needs, Tells, Passed;
    TypAt(dag, k, x);
    forall y | Needs(dag, x, y)
      ensures Typ(dag, y).Some? && Tells(dag, y, Typ(dag, y).value)
    {
      NeedsTyped(dag, k, x, y);
      TypAt(dag, k - 1, y);
      RankTells(dag, k - 1, y);
    }
    StepTells(dag, x);
  }

  lemma StepTells(dag: Dag, x: Id)
    requires WellFormed(dag) && Typ(dag, x).Some?
    requires forall y :: Needs(dag, x, y) ==> Typ(dag, y).Some? && Tells(dag, y, Typ(dag, y).value)
    ensures Tells(dag, x, Typ(dag, x).value)
  {
    hide Typ, Needs, Passed, WellFormed, Wiring, SourceOf;
    PassedStep(dag, x, Grayed);
    PassedStep(dag, x, Computed);
    PassedStep(dag, x, Scaled);
    var p := TypedProcess(dag, x);
    if p.LoadCollection? {
      LoadRule(dag, x);
      NothingNeeded(dag, x);
    } else if p.MergeCubes? {
      JoinStage(dag, x);
      var y := JoinNeeds(dag, x);
      forall y | Needs(dag, x, y)
        ensures Typ(dag, y) == Some(Stage(Gray, false))
      {
        JoinRule(dag, y, x);
      }
    } else {
      var y := OneFeeder(dag, x);
    }
  }

  lemma TypedProcess(dag: Dag, x: Id) returns (p: Process)
    requires WellFormed(dag) && Typ(dag, x).Some?
    ensures NodeOf(dag.nodes, x).Some? && p == NodeOf(dag.nodes, x).value.process && Known(p)
  {
    TypRule(dag, x);
    p := NodeOf(dag.nodes, x).value.process;
    NodeOfIn(dag.nodes, x);
  }

  lemma NothingNeeded(dag: Dag, x: Id)
    requires NodeOf(dag.nodes, x).Some? && NodeOf(dag.nodes, x).value.process.LoadCollection?
    ensures forall y :: !Needs(dag, x, y)
  {
  }

  lemma JoinNeeds(dag: Dag, x: Id) returns (y: Id)
    requires NodeOf(dag.nodes, x).Some? && NodeOf(dag.nodes, x).value.process.MergeCubes? && Typ(dag, x).Some?
    ensures Needs(dag, x, y)
  {
    JoinWiring(dag, x);
    TypRule(dag, x);
    var sources := Wiring(dag, x).value.sources;
    hide Typ, Wiring;
    assert TypsOf(dag, sources)[0] in TypsOf(dag, sources);
    y := sources[0].value;
  }

  /** What feeds a typed step with one input, and the rule of the step. */
  lemma OneFeeder(dag: Dag, x: Id) returns (y: Id)
    requires NodeOf(dag.nodes, x).Some? && |Inputs(NodeOf(dag.nodes, x).value.process)| == 1 && Typ(dag, x).Some?
    ensures Needs(dag, x, y) && forall z :: Needs(dag, x, z) ==> z == y
    ensures Typ(dag, y).Some? && Typ(dag, x) == Apply(NodeOf(dag.nodes, x).value.process, [Typ(dag, y)])
  {
    var port := Inputs(NodeOf(dag.nodes, x).value.process)[0];
    OneInputRule(dag, x, port);
    StepWiring(dag, x, port);
    assert None in [TypOf(dag, SourceOf(dag.edges, x, port))] <==> TypOf(dag, SourceOf(dag.edges, x, port)).None?;
    y := SourceOf(dag.edges, x, port).value;
  }

  // ----- What types, by the steps alone -----

  /** What a step asks of the cube that feeds it: a reducing step, that it has passed no
      reducing step, UDF, join or scale; a scale, that it has passed no scale; a join, that it
      has been made gray and not scaled. */
  ghost predicate Accepts(dag: Dag, p: Process, y: Id) {
    match p
    case Ndvi => Untouched(dag, y)
    case ReduceDimension => Untouched(dag, y)
    case RunUdf => Untouched(dag, y)
    case LinearScaleRange => !Passed(dag, y, Scaled)
    case MergeCubes => Passed(dag, y, Grayed) && !Passed(dag, y, Scaled)
    case _ => true
  }

  ghost predicate Untouched(dag: Dag, y: Id) {
    !Passed(dag, y, Grayed) && !Passed(dag, y, Computed) && !Passed(dag, y, Scaled)
  }

  lemma AcceptsOne(dag: Dag, p: Process, y: Id, s: Stage)
    requires Tells(dag, y, s) && |Inputs(p)| == 1
    ensures Apply(p, [Some(s)]).Some? <==> Accepts(dag, p, y)
  {
    hide Passed;
    assert None !in [Some(s)];
  }

  lemma AcceptsJoin(dag: Dag, y: Id, s: Stage)
    requires Tells(dag, y, s)
    ensures s == Stage(Gray, false) <==> Accepts(dag, MergeCubes, y)
  {
    hide Passed;
  }

  /** What feeds the step is typed, and accepted by it. */
  ghost predicate FeederFits(dag: Dag, p: Process, y: Id) {
    Typ(dag, y).Some? && Accepts(dag, p, y)
  }

  /** A step types exactly when all its inputs are fed, by typed steps whose cubes it accepts. */
  lemma TypesWhenFed(dag: Dag, x: Id)
    requires WellFormed(dag) && NodeOf(dag.nodes, x).Some?
    ensures Typ(dag, x).Some? <==>
      AllInputsFed(dag, x) && forall y :: Needs(dag, x, y) ==> FeederFits(dag, NodeOf(dag.nodes, x).value.process, y)
  {
    hide Typ, WellFormed, Needs, SourceOf, Accepts;
    var p := NodeOf(dag.nodes, x).value.process;
    if p.LoadCollection? {
      LoadRule(dag, x);
      NothingNeeded(dag, x);
    } else if p.MergeCubes? {
      JoinTypesWhenFed(dag, x);
    } else {
      NodeKnown(dag, x);
      OneTypesWhenFed(dag, x, Inputs(p)[0]);
    }
  }

  lemma NodeKnown(dag: Dag, x: Id)
    requires WellFormed(dag) && NodeOf(dag.nodes, x).Some?
    ensures Known(NodeOf(dag.nodes, x).value.process)
  {
    NodeOfIn(dag.nodes, x);
  }

  lemma FedSources(dag: Dag, x: Id)
    requires NodeOf(dag.nodes, x).Some?
    ensures AllInputsFed(dag, x) <==>
      forall port :: port in Inputs(NodeOf(dag.nodes, x).value.process) ==> SourceOf(dag.edges, x, port).Some?
  {
  }

  lemma OneTypesWhenFed(dag: Dag, x: Id, port: Port)
    requires WellFormed(dag) && NodeOf(dag.nodes, x).Some? && Inputs(NodeOf(dag.nodes, x).value.process) == [port]
    ensures Typ(dag, x).Some? <==>
      AllInputsFed(dag, x) && forall y :: Needs(dag, x, y) ==> FeederFits(dag, NodeOf(dag.nodes, x).value.process, y)
  {
    hide WellFormed, Typ, SourceOf, NodeOf, Accepts, Tells, AllInputsFed;
    OneInputRule(dag, x, port);
    StepWiring(dag, x, port);
    FedSources(dag, x);
    var p, source := NodeOf(dag.nodes, x).value.process, SourceOf(dag.edges, x, port);
    if source.Some? {
      var y := source.value;
      assert Needs(dag, x, y);
      if Typ(dag, y).Some? {
        TypeTells(dag, y);
        AcceptsOne(dag, p, y, Typ(dag, y).value);
      } else {
        assert None in [Typ(dag, y)];
      }
    } else {
      assert None in [TypOf(dag, source)];
    }
  }

  lemma JoinTypesWhenFed(dag: Dag, x: Id)
    requires WellFormed(dag) && NodeOf(dag.nodes, x).Some? && NodeOf(dag.nodes, x).value.process.MergeCubes?
    ensures Typ(dag, x).Some? <==>
      AllInputsFed(dag, x) && forall y :: Needs(dag, x, y) ==> FeederFits(dag, MergeCubes, y)
  {
    hide WellFormed, Typ, SourceOf, NodeOf, Accepts, Tells, AllInputsFed;
    JoinWiring(dag, x);
    FedSources(dag, x);
    TypRule(dag, x);
    var c, d := SourceOf(dag.edges, x, Cube1), SourceOf(dag.edges, x, Cube2);
    assert TypsOf(dag, [c, d]) == [TypOf(dag, c), TypOf(dag, d)];
    assert forall y :: Needs(dag, x, y) <==> c == Some(y) || d == Some(y);
    assert None in [TypOf(dag, c), TypOf(dag, d)] <==> TypOf(dag, c).None? || TypOf(dag, d).None?;
    forall y | Needs(dag, x, y)
      ensures FeederFits(dag, MergeCubes, y) <==> Typ(dag, y) == Some(Stage(Gray, false))
    {
      if Typ(dag, y).Some? {
        TypeTells(dag, y);
        AcceptsJoin(dag, y, Typ(dag, y).value);
      }
    }
  }

  // ----- Which graphs are well typed -----

  ghost predicate EdgeAccepted(dag: Dag, e: Edge) {
    NodeOf(dag.nodes, e.to.node).Some? && Accepts(dag, NodeOf(dag.nodes, e.to.node).value.process, e.from.node)
  }

  /** The graph is acyclic, every input is fed, and every edge's target accepts its cube. */
  ghost predicate Sound(dag: Dag) {
    Acyclic(dag.edges) && (forall n :: n in dag.nodes ==> AllInputsFed(dag, n.id)) &&
    forall e :: e in dag.edges ==> EdgeAccepted(dag, e)
  }

  /** The `i`-th ordered node is on the canvas. */
  lemma OrderedFound(dag: Dag, i: nat)
    requires WellFormed(dag) && i < |Order(dag)|
    ensures Order(dag)[i] in dag.nodes && NodeOf(dag.nodes, Order(dag)[i].id) == Some(Order(dag)[i])
  {
    LayersMember(dag, |dag.nodes|, Order(dag)[i]);
    NodeOfUnique(dag.nodes, Order(dag)[i]);
  }

  /** What feeds it stands earlier, and it accepts it. */
  lemma OrderedFeeder(dag: Dag, i: nat, y: Id) returns (j: nat)
    requires WellFormed(dag) && Sound(dag) && i < |Order(dag)| && Needs(dag, Order(dag)[i].id, y)
    ensures j < i && Order(dag)[j].id == y && Accepts(dag, Order(dag)[i].process, y)
  {
    hide Order, WellFormed, Accepts, Acyclic, AllInputsFed;
    WellFormedEnds(dag);
    OrderedFound(dag, i);
    NeedsLinked(dag, Order(dag)[i].id, y);
    var e :| e in dag.edges && e.from.node == y && e.to.node == Order(dag)[i].id;
    assert EdgeAccepted(dag, e);
    j := SourcesFirst(dag, e, i);
  }

  lemma SoundFed(dag: Dag, n: Node)
    requires Sound(dag) && n in dag.nodes
    ensures AllInputsFed(dag, n.id)
  {
  }

  lemma {:induction false} OrderedTyped(dag: Dag, i: nat)
    requires WellFormed(dag) && Sound(dag) && i < |Order(dag)|
    ensures Typ(dag, Order(dag)[i].id).Some?
    decreases i
  {
    hide *;
    var n := Order(dag)[i];
    OrderedFound(dag, i);
    SoundFed(dag, n);
    forall y | Needs(dag, n.id, y)
      ensures FeederFits(dag, n.process, y)
    {
      var j := OrderedFeeder(dag, i, y);
      OrderedTyped(dag, j);
      FitsWhen(dag, n.process, y);
    }
    TypesWhenFed(dag, n.id);
  }

  lemma FitsWhen(dag: Dag, p: Process, y: Id)
    ensures FeederFits(dag, p, y) <==> Typ(dag, y).Some? && Accepts(dag, p, y)
  {
  }

  /** A well-formed graph is well typed exactly when it is acyclic, every input is fed, and
      every edge's target accepts what the cube has passed. */
  lemma WellTypedExactly(dag: Dag)
    requires WellFormed(dag)
    ensures AllTyped(dag) <==> Sound(dag)
  {
    hide Typ, Needs, AllInputsFed, Accepts, Order;
    if AllTyped(dag) {
      TypedAcyclic(dag);
      forall n | n in dag.nodes
        ensures AllInputsFed(dag, n.id)
      {
        NodeOfUnique(dag.nodes, n);
        TypesWhenFed(dag, n.id);
      }
      forall e | e in dag.edges
        ensures EdgeAccepted(dag, e)
      {
        assert EdgeFits(dag.nodes, e) && Linked(dag.edges, e.from.node, e.to.node);
        NodeOfIn(dag.nodes, e.to.node);
        LinkedNeeds(dag, e.to.node, e.from.node);
        TypesWhenFed(dag, e.to.node);
      }
    }
    if Sound(dag) {
      WellFormedEnds(dag);
      forall n | n in dag.nodes
        ensures Typ(dag, n.id).Some?
      {
        AcyclicOrdersAll(dag, n);
        var i :| 0 <= i < |Order(dag)| && Order(dag)[i] == n;
        OrderedTyped(dag, i);
      }
    }
  }
}
