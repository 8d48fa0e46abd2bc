/** The NDVI template of web/src/authoring-dag.ts: a graph the rest of the model speaks of. */
module Template {
  import opened Wrappers
  import opened Stages
  import opened Json
  import opened Graph
  import opened Paths
  import opened Typing
  import opened Palette
  import opened Evaluation
  import Admission

  /** load → ndvi → scale → save. */
  function NdviTemplate(collection: string, nir: string, red: string): Dag {
    Dag([Node("s1", LoadCollection, map["id" := Str(collection), "bands" := Arr([Str(nir), Str(red)])]),
         Node("s2", Ndvi, map["nir" := Str(nir), "red" := Str(red)]),
         Node("s3", LinearScaleRange,
              map["inputMin" := Num("-1"), "inputMax" := Num("1"), "outputMin" := Num("0"), "outputMax" := Num("255")]),
         Node("s4", SaveResult, map["format" := Str("png")])],
        [Edge(PortRef("s1", Out), PortRef("s2", Data)),
         Edge(PortRef("s2", Out), PortRef("s3", X)),
         Edge(PortRef("s3", Out), PortRef("s4", Data))])
  }

  lemma TemplateChain(collection: string, nir: string, red: string)
    ensures var dag := NdviTemplate(collection, nir, red);
            |dag.nodes| == 4 && IsChain(dag.nodes) && UniqueIds(dag.nodes) && SingleFed(dag.edges)
  {
    assert "s1"[1] != "s2"[1] && "s1"[1] != "s3"[1] && "s1"[1] != "s4"[1];
    assert "s2"[1] != "s3"[1] && "s2"[1] != "s4"[1] && "s3"[1] != "s4"[1];
  }

  lemma TemplateStraight(collection: string, nir: string, red: string)
    ensures var dag := NdviTemplate(collection, nir, red); Straight(dag, dag.nodes) && |dag.nodes| == 4
  {
    hide IsChain, UniqueIds, SingleFed;
    var dag := NdviTemplate(collection, nir, red);
    TemplateChain(collection, nir, red);
    assert dag.edges == [Link(dag.nodes, 0), Link(dag.nodes, 1), Link(dag.nodes, 2)];
    assert dag.edges[0] in dag.edges && dag.edges[1] in dag.edges && dag.edges[2] in dag.edges;
  }

  lemma ChainProcess(chain: seq<Node>, i: nat)
    requires IsChain(chain) && i < |chain|
    ensures Known(chain[i].process) && (i < |chain| - 1 ==> HasOutput(chain[i].process))
    ensures i > 0 ==> FirstInput(chain[i].process) in Inputs(chain[i].process)
  {
  }

  lemma LinkFits(dag: Dag, chain: seq<Node>, i: nat)
    requires Straight(dag, chain) && i + 1 < |chain|
    ensures EdgeFits(dag.nodes, Link(chain, i))
  {
    StraightStage(dag, chain, i);
    StraightStage(dag, chain, i + 1);
    ChainProcess(chain, i);
    ChainProcess(chain, i + 1);
    hide Straight, NodeOf, FirstInput, Inputs, HasOutput, Typ;
  }

  /** A straight pipeline is well-formed wiring. */
  lemma StraightWellFormed(dag: Dag, chain: seq<Node>)
    requires Straight(dag, chain)
    ensures WellFormed(dag) && forall e :: e in dag.edges ==> e.from.port == Out
  {
    hide EdgeFits, UniqueIds, SingleFed, IsChain, Known;
    forall n | n in dag.nodes
      ensures Known(n.process)
    {
      var i :| 0 <= i < |chain| && chain[i] == n;
      ChainProcess(chain, i);
    }
    forall e | e in dag.edges
      ensures EdgeFits(dag.nodes, e)
    {
      var i :| 0 <= i < |chain| - 1 && e == Link(chain, i);
      LinkFits(dag, chain, i);
    }
  }

  /** In a straight pipeline that types every step is valid and leads to the output. */
  lemma StraightValid(dag: Dag, chain: seq<Node>)
    requires Straight(dag, chain) && AllTyped(dag)
    ensures Admission.Valid(dag)
  {
    hide Typ, Straight, EdgeFits, WellFormed, Acyclic;
    StraightWellFormed(dag, chain);
    TypedAcyclic(dag);
    forall e | e in dag.edges
      ensures Typ(dag, e.from.node).Some?
    {
      EdgeFound(dag, e);
      NodeOfIn(dag.nodes, e.from.node);
    }
  }

  lemma EdgeFound(dag: Dag, e: Edge)
    requires WellFormed(dag) && e in dag.edges
    ensures NodeOf(dag.nodes, e.from.node).Some?
  {
    assert EdgeFits(dag.nodes, e);
  }

  lemma {:induction false} StraightLeads(dag: Dag, chain: seq<Node>, i: nat, j: nat)
    requires Straight(dag, chain) && i <= j < |chain|
    ensures Reach(dag.edges, chain[i].id, chain[j].id)
    decreases j - i
  {
    hide Straight, Reach;
    if i == j {
      ReachRefl(dag.edges, chain[i].id);
    } else {
      StraightLeads(dag, chain, i, j - 1);
      StraightLink(dag, chain, j - 1);
      ReachThenLink(dag.edges, chain[i].id, Link(chain, j - 1));
    }
  }

  lemma StraightLink(dag: Dag, chain: seq<Node>, i: nat)
    requires Straight(dag, chain) && i + 1 < |chain|
    ensures Link(chain, i) in dag.edges
  {
  }

  lemma TemplateProcesses(collection: string, nir: string, red: string)
    ensures var chain := NdviTemplate(collection, nir, red).nodes;
            |chain| == 4 && chain[1].process == Ndvi && chain[2].process == LinearScaleRange &&
            chain[3].process == SaveResult && chain[1].id == "s2" && chain[2].id == "s3" && chain[3].id == "s4"
  {
  }

  lemma TemplateStages(collection: string, nir: string, red: string)
    ensures var chain := NdviTemplate(collection, nir, red).nodes;
            StageAfter(chain, 1) == Some(Stage(Gray, false)) && StageAfter(chain, 2) == Some(Stage(Gray, true)) &&
            StageAfter(chain, 3) == Some(Stage(Gray, true))
  {
    hide NdviTemplate;
    TemplateProcesses(collection, nir, red);
    var chain := NdviTemplate(collection, nir, red).nodes;
    assert StageAfter(chain, 0) == Some(LOAD_STAGE);
    assert StageAfter(chain, 1) == Some(Stage(Gray, false));
    assert StageAfter(chain, 2) == Some(Stage(Gray, true));
  }

  /** The template is a valid graph that types, its output a scaled gray cube, and every
      step leads to it. */
  lemma TemplateValid(collection: string, nir: string, red: string)
    ensures var dag := NdviTemplate(collection, nir, red);
            Admission.Valid(dag) && AllTyped(dag) && Typ(dag, "s4") == Some(Stage(Gray, true)) &&
            forall n :: n in dag.nodes ==> Reach(dag.edges, n.id, "s4")
  {
    hide NdviTemplate, Straight, StageAfter, AllTyped, Typ, Reach, Admission.Valid;
    var dag := NdviTemplate(collection, nir, red);
    var chain := dag.nodes;
    TemplateStraight(collection, nir, red);
    TemplateProcesses(collection, nir, red);
    TemplateStages(collection, nir, red);
    StraightStage(dag, chain, 3);
    StraightTypes(dag, chain);
    StraightValid(dag, chain);
    forall n | n in dag.nodes
      ensures Reach(dag.edges, n.id, "s4")
    {
      var i :| 0 <= i < |chain| && chain[i] == n;
      StraightLeads(dag, chain, i, 3);
    }
  }

  // ----- What it computes -----

  /** Where a step of a pipeline reads its cube. */
  function CubeName(p: Process): string {
    if p == LinearScaleRange then "x" else "data"
  }

  /** A straight pipeline runs its steps one after the other, each on what the one before
      made. */
  lemma StraightMakes<V>(ops: Operations<V>, dag: Dag, chain: seq<Node>, scope: Scope, n: nat, i: nat)
    requires Straight(dag, chain) && i < |chain| && n > 0
    ensures MadeAt(ops, dag, scope, n, chain[i].id) ==
      if i == 0 then ops.load(Parameters(scope, n - 1, chain[0], {}))
      else ops.one(chain[i].process, MadeAt(ops, dag, scope, n - 1, chain[i - 1].id),
                   Parameters(scope, n - 1, chain[i], {CubeName(chain[i].process)}))
  {
    hide Straight, Parameters, SourceOf, NodeOf;
    StraightNode(dag, chain, i);
    assert MadeAt(ops, dag, scope, n, chain[i].id) == Made(ops, dag, scope, n - 1, chain[i]);
    if i > 0 {
      StraightFed(dag, chain, i);
      StepProcess(dag, chain, i);
      var port := FirstInput(chain[i].process);
      assert Given(ops, dag, scope, n - 1, chain[i], port, CubeName(chain[i].process))
          == MadeAt(ops, dag, scope, n - 1, chain[i - 1].id);
    }
  }

  lemma StepProcess(dag: Dag, chain: seq<Node>, i: nat)
    requires Straight(dag, chain) && 0 < i < |chain|
    ensures chain[i].process in {FilterTemporal, Ndvi, ReduceDimension, RunUdf, LinearScaleRange, SaveResult}
  {
  }

  lemma TwoParameters(scope: Scope, n: nat, node: Node, cubes: set<string>, k: string, a: Json, l: string, b: Json)
    requires node.params == map[k := a, l := b] && k != l && k !in cubes && l !in cubes
    ensures Parameters(scope, n, node, cubes) == map[k := Resolve(scope, n, a), l := Resolve(scope, n, b)]
  {
    hide Resolve;
  }

  /** What the template's load is sent. */
  lemma LoadParameters(collection: string, nir: string, red: string, scope: Scope, n: nat)
    ensures Parameters(scope, n, NdviTemplate(collection, nir, red).nodes[0], {})
         == map["id" := TStr(collection), "bands" := TArr([TStr(nir), TStr(red)])]
  {
    hide Parameters;
    var bands := Arr([Str(nir), Str(red)]);
    assert Resolve(scope, n, bands).items == [TStr(nir), TStr(red)];
    TwoParameters(scope, n, NdviTemplate(collection, nir, red).nodes[0], {}, "id", Str(collection), "bands", bands);
  }

  lemma NdviParameters(collection: string, nir: string, red: string, scope: Scope, n: nat)
    ensures Parameters(scope, n, NdviTemplate(collection, nir, red).nodes[1], {"data"})
         == map["nir" := TStr(nir), "red" := TStr(red)]
  {
    hide Parameters;
    assert "nir"[0] != "red"[0];
    TwoParameters(scope, n, NdviTemplate(collection, nir, red).nodes[1], {"data"}, "nir", Str(nir), "red", Str(red));
  }

  lemma FourNumbers(scope: Scope, n: nat, node: Node, cubes: set<string>, ks: seq<string>, ts: seq<string>)
    requires |ks| == 4 && |ts| == 4 && (forall i, j :: 0 <= i < j < 4 ==> ks[i] != ks[j])
    requires forall i :: 0 <= i < 4 ==> ks[i] !in cubes
    requires node.params == map[ks[0] := Num(ts[0]), ks[1] := Num(ts[1]), ks[2] := Num(ts[2]), ks[3] := Num(ts[3])]
    ensures Parameters(scope, n, node, cubes)
         == map[ks[0] := TNum(ts[0]), ks[1] := TNum(ts[1]), ks[2] := TNum(ts[2]), ks[3] := TNum(ts[3])]
  {
  }

  lemma ScaleParameters(collection: string, nir: string, red: string, scope: Scope, n: nat)
    ensures Parameters(scope, n, NdviTemplate(collection, nir, red).nodes[2], {"x"})
         == map["inputMin" := TNum("-1"), "inputMax" := TNum("1"), "outputMin" := TNum("0"),
                "outputMax" := TNum("255")]
  {
    hide Parameters, Resolve;
    assert "inputMin"[6] != "inputMax"[6] && "outputMin"[7] != "outputMax"[7];
    assert |"inputMin"| == 8 && |"inputMax"| == 8 && |"outputMin"| == 9 && |"outputMax"| == 9;
    FourNumbers(scope, n, NdviTemplate(collection, nir, red).nodes[2], {"x"},
                ["inputMin", "inputMax", "outputMin", "outputMax"], ["-1", "1", "0", "255"]);
  }

  lemma SaveParameters(collection: string, nir: string, red: string, scope: Scope, n: nat)
    ensures Parameters(scope, n, NdviTemplate(collection, nir, red).nodes[3], {"data"})
         == map["format" := TStr("png")]
  {
  }

  /** The template saves, as PNG, the NDVI of the two bands of the collection, scaled from
      -1..1 to 0..255. */
  lemma TemplateMakes<V>(ops: Operations<V>, collection: string, nir: string, red: string, scope: Scope, n: nat)
    requires n >= 4
    ensures MadeAt(ops, NdviTemplate(collection, nir, red), scope, n, "s4") ==
      ops.one(SaveResult,
              ops.one(LinearScaleRange,
                      ops.one(Ndvi,
                              ops.load(map["id" := TStr(collection), "bands" := TArr([TStr(nir), TStr(red)])]),
                              map["nir" := TStr(nir), "red" := TStr(red)]),
                      map["inputMin" := TNum("-1"), "inputMax" := TNum("1"), "outputMin" := TNum("0"),
                          "outputMax" := TNum("255")]),
              map["format" := TStr("png")])
  {
    hide NdviTemplate, Straight, Parameters, MadeAt;
    var dag := NdviTemplate(collection, nir, red);
    TemplateStraight(collection, nir, red);
    TemplateProcesses(collection, nir, red);
    StraightMakes(ops, dag, dag.nodes, scope, n, 3);
    StraightMakes(ops, dag, dag.nodes, scope, n - 1, 2);
    StraightMakes(ops, dag, dag.nodes, scope, n - 2, 1);
    StraightMakes(ops, dag, dag.nodes, scope, n - 3, 0);
    LoadParameters(collection, nir, red, scope, n - 4);
    NdviParameters(collection, nir, red, scope, n - 3);
    ScaleParameters(collection, nir, red, scope, n - 2);
    SaveParameters(collection, nir, red, scope, n - 1);
  }
}
