/** What the panel's preview sends: the pipeline up to the selected step where that shows
    something, and otherwise the whole. */
module Preview {
  import opened Wrappers
  import opened Stages
  import opened Json
  import opened Graph
  import opened Paths
  import opened Typing
  import opened Ordering
  import opened Output
  import opened Lowering
  import opened Truncation

  // ----- The preview -----

  /** Whether a stage is one the server renders: a gray cube or a UDF result, or three bands
      that are scaled. */
  predicate Renders(stage: Option<Stage>, threeBands: bool) {
    stage.Some? && (stage.value.kind != Multi || (threeBands && stage.value.scaled))
  }

  /** The graph previewed. */
  ghost function Shown(dag: Dag, selected: Option<Id>, save: Option<Node>, threeBands: bool): Dag {
    if selected.None? || selected == Some("") || save.None? then dag
    else if !Renders(Typ(dag, selected.value), threeBands) then dag
    else
      match Truncated(dag, selected.value, save.value)
      case None => dag
      case Some(cut) => cut
  }

  method PreviewGraph(dag: Dag, selected: Option<Id>, save: Option<Node>, threeBands: bool) returns (graph: Scope)
    requires WellFormed(dag) && (save.Some? ==> PanelOutput(dag, save.value))
    ensures Lowers(Shown(dag, selected, save, threeBands), graph)
  {
    hide WellFormed, Lowers, Typ, Truncated, PanelOutput;
    if selected.None? || selected == Some("") || save.None? {
      graph := Lower(dag);
      return;
    }
    var typer := new Typer(dag);
    var stage := typer.TypeOf(selected.value);
    if !Renders(stage, threeBands) {
      graph := Lower(dag);
      return;
    }
    var cut := TruncatedAt(dag, selected.value, save.value);
    if cut.None? {
      graph := Lower(dag);
    } else {
      TruncatedSound(dag, selected.value, save.value);
      graph := Lower(cut.value);
    }
  }

  /** A cube of one band, or of three that are scaled. */
  predicate ShowsPixels(stage: Option<Stage>, threeBands: bool) {
    match stage
    case None => false
    case Some(s) => s.kind == Gray || s.kind == Udf || (s.scaled && threeBands)
  }

  /** What the preview denotes, on an acyclic canvas with its output: of a selected card that
      gives a cube of one band, or of three that are scaled, that cube saved as the output card says; of any other
      selection, the output itself. */
  lemma PreviewShows(dag: Dag, selected: Id, save: Node, threeBands: bool, graph: Scope, scope: Scope, n: nat)
    requires WellFormed(dag) && Acyclic(dag.edges) && OutputNode(dag.nodes) == Some(save) && selected != ""
    requires forall node :: node in dag.nodes ==> ParamsLowerable(node)
    requires Lowers(Shown(dag, Some(selected), Some(save), threeBands), graph)
    ensures Resolve(scope, n, Child(graph, map[])) ==
      TFun({if GivesCube(dag, selected) && ShowsPixels(Typ(dag, selected), threeBands)
            then CallTerm(SaveResult, ParamTerms(graph, n, save.params)["data" := DagTerm(dag, graph, n, selected)])
            else NodeValue(dag, graph, n, save)})
  {
    OutputNodeIn(dag.nodes);
    OutputPanel(dag, save);
    hide WellFormed, Acyclic, ParamsLowerable, Lowers, Typ, Resolve, ParamTerms, NodeValue, DagTerm, CallTerm, Cut;
    CubeGiven(dag, selected);
    TruncatedWhen(dag, selected, save);
    if GivesCube(dag, selected) && ShowsPixels(Typ(dag, selected), threeBands) {
      PreviewLowers(dag, selected, save, graph, scope, n);
    } else {
      LoweredGraphTerm(dag, graph, n, scope);
    }
  }

  lemma OutputPanel(dag: Dag, save: Node)
    requires WellFormed(dag) && save in dag.nodes && save.process == SaveResult
    ensures PanelOutput(dag, save)
  {
    forall n | n in dag.nodes && n.id == save.id
      ensures n == save
    {
      NodeOfUnique(dag.nodes, n);
      NodeOfUnique(dag.nodes, save);
    }
  }
}
