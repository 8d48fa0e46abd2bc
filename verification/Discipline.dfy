/** The shape well-typed graphs have: where reducing, joining and scaling steps can lie on
    a path, and what may be inserted on an edge. */
module Discipline {
  import opened Wrappers
  import opened Stages
  import opened Graph
  import opened Paths
  import opened Typing

  // ----- Phases along a path -----

  /** A loaded cube, one reduced, one scaled. */
  function Phase(s: Stage): nat {
    if s.scaled then 2 else if s.kind.Multi? then 0 else 1
  }

  function ProcessOf(dag: Dag, id: Id): Option<Process> {
    match NodeOf(dag.nodes, id)
    case None => None
    case Some(n) => Some(n.process)
  }

  ghost predicate Typed(dag: Dag) {
    WellFormed(dag) && AllTyped(dag)
  }

  /** The rule of a step with one input. */
  lemma OneInputRule(dag: Dag, b: Id, port: Port)
    requires NodeOf(dag.nodes, b).Some? && Inputs(NodeOf(dag.nodes, b).value.process) == [port]
    ensures Typ(dag, b) == Apply(NodeOf(dag.nodes, b).value.process, [TypOf(dag, SourceOf(dag.edges, b, port))])
    ensures forall a :: Needs(dag, b, a) ==> SourceOf(dag.edges, b, port) == Some(a)
  {
    StepWiring(dag, b, port);
    TypRule(dag, b);
    hide Typ, Wiring, SourceOf, NodeOf;
    assert TypsOf(dag, [SourceOf(dag.edges, b, port)]) == [TypOf(dag, SourceOf(dag.edges, b, port))];
  }

  /** A typed join carries, and takes, gray unscaled cubes. */
  lemma JoinRule(dag: Dag, a: Id, b: Id)
    requires NodeOf(dag.nodes, b).Some? && NodeOf(dag.nodes, b).value.process.MergeCubes?
    requires Typ(dag, b).Some? && Needs(dag, b, a)
    ensures Typ(dag, b) == Some(Stage(Gray, false)) && Typ(dag, a) == Some(Stage(Gray, false))
  {
    JoinWiring(dag, b);
    TypRule(dag, b);
    hide Typ, Wiring, SourceOf, NodeOf;
    var c, d := SourceOf(dag.edges, b, Cube1), SourceOf(dag.edges, b, Cube2);
    assert TypsOf(dag, [c, d]) == [TypOf(dag, c), TypOf(dag, d)];
  }

  /** What a UDF result may feed. */
  predicate PassesUdf(p: Process) {
    p.FilterTemporal? || p.LinearScaleRange? || p.SaveResult?
  }

  /** What each process does to the stage of its source. */
  predicate StageStep(p: Process, s: Stage, t: Stage) {
    Known(p) && !p.LoadCollection? &&
    (p.FilterTemporal? || p.SaveResult? ==> t == s) &&
    (Reducing(p) ==> Phase(s) == 0 && Phase(t) == 1) &&
    (p.RunUdf? ==> t.kind.Udf?) && (s.kind.Udf? ==> t.kind.Udf? && PassesUdf(p)) &&
    (p.MergeCubes? ==> s == t == Stage(Gray, false)) &&
    (p.LinearScaleRange? ==> Phase(s) < 2 && Phase(t) == 2)
  }

  /** A typed step's rule accepted the stage of each of its sources. */
  lemma StepStages(dag: Dag, a: Id, b: Id)
    requires Typed(dag) && Linked(dag.edges, a, b)
    ensures ProcessOf(dag, a).Some? && ProcessOf(dag, b).Some? && Typ(dag, a).Some? && Typ(dag, b).Some?
    ensures StageStep(ProcessOf(dag, b).value, Typ(dag, a).value, Typ(dag, b).value)
  {
    LinkedTyped(dag, a, b);
    LinkedNeeds(dag, b, a);
    hide Typ, Typed, WellFormed, NodeOf, Linked, Needs, StageStep;
    SourceStage(dag, a, b);
  }

  lemma SourceStage(dag: Dag, a: Id, b: Id)
    requires NodeOf(dag.nodes, b).Some? && Known(NodeOf(dag.nodes, b).value.process)
    requires Needs(dag, b, a) && Typ(dag, a).Some? && Typ(dag, b).Some?
    ensures StageStep(NodeOf(dag.nodes, b).value.process, Typ(dag, a).value, Typ(dag, b).value)
  {
    hide Typ, NodeOf, Needs, Wiring, SourceOf;
    var p := NodeOf(dag.nodes, b).value.process;
    if p.MergeCubes? {
      JoinRule(dag, a, b);
    } else if p.LoadCollection? {
      LoadNeedsNothing(dag, b, a);
    } else {
      OneInputRule(dag, b, Inputs(p)[0]);
    }
  }

  lemma LoadNeedsNothing(dag: Dag, b: Id, a: Id)
    requires NodeOf(dag.nodes, b).Some? && Inputs(NodeOf(dag.nodes, b).value.process) == []
    ensures !Needs(dag, b, a)
  {
  }

  lemma LinkedTyped(dag: Dag, a: Id, b: Id)
    requires Typed(dag) && Linked(dag.edges, a, b)
    ensures NodeOf(dag.nodes, a).Some? && NodeOf(dag.nodes, b).Some? && Known(NodeOf(dag.nodes, b).value.process)
    ensures Typ(dag, a).Some? && Typ(dag, b).Some?
  {
    NodeOfIn(dag.nodes, a);
    NodeOfIn(dag.nodes, b);
  }

  ghost predicate PathOf(dag: Dag, p: seq<Id>) {
    Typed(dag) && IsPath(dag.edges, p) && |p| > 1
  }

  lemma PathTyped(dag: Dag, p: seq<Id>, i: nat)
    requires PathOf(dag, p) && i < |p|
    ensures ProcessOf(dag, p[i]).Some? && Typ(dag, p[i]).Some?
  {
    hide Typ, Typed;
    if i > 0 {
      assert Linked(dag.edges, p[i - 1], p[i]);
      StepStages(dag, p[i - 1], p[i]);
    } else {
      assert Linked(dag.edges, p[0], p[1]);
      StepStages(dag, p[0], p[1]);
    }
  }

  ghost function PhaseAt(dag: Dag, p: seq<Id>, i: nat): nat
    requires i < |p|
  {
    if Typ(dag, p[i]).Some? then Phase(Typ(dag, p[i]).value) else 0
  }

  /** Phases never fall along a path. */
  lemma {:induction false} PhasesRise(dag: Dag, p: seq<Id>, i: nat, j: nat)
    requires PathOf(dag, p) && i <= j < |p|
    ensures PhaseAt(dag, p, i) <= PhaseAt(dag, p, j)
    decreases j - i
  {
    hide Typ, Typed;
    if i < j {
      PhasesRise(dag, p, i, j - 1);
      assert Linked(dag.edges, p[j - 1], p[j]);
      StepStages(dag, p[j - 1], p[j]);
    }
  }

  /** Between a loaded cube and a reduced one lies a reducing step. */
  lemma {:induction false} ReduceBetween(dag: Dag, p: seq<Id>, i: nat, j: nat) returns (m: nat)
    requires PathOf(dag, p) && i < j < |p| && PhaseAt(dag, p, i) == 0 && PhaseAt(dag, p, j) == 1
    ensures i < m <= j && ProcessOf(dag, p[m]).Some? && Reducing(ProcessOf(dag, p[m]).value)
    decreases j - i
  {
    hide Typ, Typed;
    assert Linked(dag.edges, p[j - 1], p[j]);
    StepStages(dag, p[j - 1], p[j]);
    PhasesRise(dag, p, j - 1, j);
    if PhaseAt(dag, p, j - 1) == 0 {
      m := j;
    } else {
      m := ReduceBetween(dag, p, i, j - 1);
    }
  }

  /** Along a path a UDF result stays one. */
  lemma {:induction false} UdfStays(dag: Dag, p: seq<Id>, i: nat, j: nat)
    requires PathOf(dag, p) && i <= j < |p| && Typ(dag, p[i]).Some? && Typ(dag, p[i]).value.kind.Udf?
    ensures Typ(dag, p[j]).Some? && Typ(dag, p[j]).value.kind.Udf?
    decreases j - i
  {
    hide Typ, Typed;
    if i < j {
      UdfStays(dag, p, i, j - 1);
      assert Linked(dag.edges, p[j - 1], p[j]);
      StepStages(dag, p[j - 1], p[j]);
    }
  }

  /** On every path of a well-typed graph: after a reducing step or a join there is no
      reducing step; after a UDF only date filters, scales and the output follow, so there is
      no join; after a scale only date filters and the output, so there is no second scale, no
      reducing step and no join; and between a load and a join lies a reducing step. */
  lemma PathShape(dag: Dag, p: seq<Id>, i: nat, j: nat)
    requires PathOf(dag, p) && i < j < |p|
    ensures ProcessOf(dag, p[i]).Some? && ProcessOf(dag, p[j]).Some?
    ensures var a, b := ProcessOf(dag, p[i]).value, ProcessOf(dag, p[j]).value;
            (Reducing(a) || a.MergeCubes? ==> !Reducing(b)) &&
            (a.RunUdf? ==> b.FilterTemporal? || b.LinearScaleRange? || b.SaveResult?) &&
            (a.LinearScaleRange? ==> b.FilterTemporal? || b.SaveResult?) &&
            (a.LoadCollection? && b.MergeCubes? ==>
              exists m :: i < m < j && ProcessOf(dag, p[m]).Some? && Reducing(ProcessOf(dag, p[m]).value))
  {
    hide Typ, Typed;
    PathTyped(dag, p, i);
    PathTyped(dag, p, j);
    StageAt(dag, p, i);
    assert Linked(dag.edges, p[j - 1], p[j]);
    StepStages(dag, p[j - 1], p[j]);
    KnownAt(dag, p[j]);
    PhasesRise(dag, p, i, j - 1);
    var a, b := ProcessOf(dag, p[i]).value, ProcessOf(dag, p[j]).value;
    if a.RunUdf? { UdfStays(dag, p, i, j - 1); }
    if a.LoadCollection? && b.MergeCubes? {
      var m := ReduceBetween(dag, p, i, j - 1);
      assert i < m < j && ProcessOf(dag, p[m]).Some? && Reducing(ProcessOf(dag, p[m]).value);
    }
  }

  lemma KnownAt(dag: Dag, id: Id)
    requires Typed(dag) && ProcessOf(dag, id).Some?
    ensures Known(ProcessOf(dag, id).value)
  {
    NodeOfIn(dag.nodes, id);
  }

  /** The phase a step leaves its cube in. */
  lemma StageAt(dag: Dag, p: seq<Id>, i: nat)
    requires PathOf(dag, p) && i < |p|
    ensures ProcessOf(dag, p[i]).Some?
    ensures var a := ProcessOf(dag, p[i]).value;
            (Reducing(a) || a.MergeCubes? ==> PhaseAt(dag, p, i) == 1) &&
            (a.RunUdf? ==> Typ(dag, p[i]).Some? && Typ(dag, p[i]).value.kind.Udf?) &&
            (a.LinearScaleRange? ==> PhaseAt(dag, p, i) == 2) &&
            (a.LoadCollection? ==> PhaseAt(dag, p, i) == 0)
  {
    PathTyped(dag, p, i);
    hide Typ, Typed, NodeOf, PathOf;
    var process := NodeOf(dag.nodes, p[i]).value.process;
    if process.LoadCollection? {
      LoadRule(dag, p[i]);
    } else if process.MergeCubes? {
      JoinStage(dag, p[i]);
    } else if process.LinearScaleRange? || Reducing(process) {
      OneInputRule(dag, p[i], Inputs(process)[0]);
    }
  }

  lemma JoinStage(dag: Dag, id: Id)
    requires NodeOf(dag.nodes, id).Some? && NodeOf(dag.nodes, id).value.process.MergeCubes? && Typ(dag, id).Some?
    ensures Typ(dag, id) == Some(Stage(Gray, false))
  {
    JoinWiring(dag, id);
    TypRule(dag, id);
  }

  lemma LoadRule(dag: Dag, id: Id)
    requires NodeOf(dag.nodes, id).Some? && NodeOf(dag.nodes, id).value.process.LoadCollection?
    ensures Typ(dag, id) == Some(LOAD_STAGE)
  {
    TypRule(dag, id);
    assert SourcesOf(dag.edges, id, []) == [] && TypsOf(dag, []) == [];
  }
}
