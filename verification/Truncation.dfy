/** The pipeline up to a selected step, which is what its preview shows. */
module Truncation {
  import opened Wrappers
  import opened Stages
  import opened Json
  import opened Graph
  import opened Paths
  import opened Typing
  import opened Ordering
  import opened Output
  import opened Lowering

  /** The canvas nodes that lead to `id`, itself included. */
  ghost function Upstream(dag: Dag, id: Id): set<Id> {
    set n | n in dag.nodes && Reach(dag.edges, n.id, id) :: n.id
  }

  /** The edges between nodes in `ids`, in order. */
  function Within(es: seq<Edge>, ids: set<Id>): seq<Edge> {
    if es == [] then []
    else if es[0].from.node in ids && es[0].to.node in ids then [es[0]] + Within(es[1..], ids)
    else Within(es[1..], ids)
  }

  ghost function Kept(dag: Dag, id: Id): (s: iset<Id>)
    ensures forall x :: x in s <==> x in Upstream(dag, id)
  {
    iset x | x in Upstream(dag, id)
  }

  function OutputFor(save: Node): Node {
    Node(save.id, SaveResult, save.params)
  }

  /** The edge into the stand-in output; its source port is the empty name. */
  function OutputEdge(id: Id, save: Node): Edge {
    Edge(PortRef(id, Named("")), PortRef(save.id, Data))
  }

  ghost function Truncated(dag: Dag, id: Id, save: Node): Option<Dag> {
    var target := NodeOf(dag.nodes, id);
    if target.None? || target.value.process.SaveResult? then None
    else Some(Cut(dag, id, save))
  }

  ghost function Cut(dag: Dag, id: Id, save: Node): Dag {
    Dag(Pick(dag.nodes, Upstream(dag, id)) + [OutputFor(save)],
        Within(dag.edges, Upstream(dag, id)) + [OutputEdge(id, save)])
  }

  /** The graph truncated at a step: what feeds the step, and an output after it. */
  method TruncatedAt(dag: Dag, id: Id, save: Node) returns (cut: Option<Dag>)
    ensures cut == Truncated(dag, id, save)
    ensures WellFormed(dag) ==> (cut.Some? <==> GivesCube(dag, id))
    ensures WellFormed(dag) && PanelOutput(dag, save) && cut.Some? ==> SoundCut(dag, id, save, cut.value)
  {
    hide Reach, WellFormed, PanelOutput, GivesCube, SoundCut;
    if WellFormed(dag) { TruncatedWhen(dag, id, save); }
    if WellFormed(dag) && PanelOutput(dag, save) && Truncated(dag, id, save).Some? { TruncatedSound(dag, id, save); }
    var target := NodeOf(dag.nodes, id);
    if target.None? || target.value.process.SaveResult? {
      return None;
    }
    var ids: set<Id> := {};
    for i := 0 to |dag.nodes|
      invariant ids == set n | n in dag.nodes[..i] && Reach(dag.edges, n.id, id) :: n.id
    {
      assert dag.nodes[..i + 1] == dag.nodes[..i] + [dag.nodes[i]];
      var reached := Reaches(dag, dag.nodes[i].id, id);
      if reached {
        ids := ids + {dag.nodes[i].id};
      }
    }
    assert dag.nodes[..|dag.nodes|] == dag.nodes;
    return Some(Dag(Pick(dag.nodes, ids) + [OutputFor(save)], Within(dag.edges, ids) + [OutputEdge(id, save)]));
  }

  // ----- Parts of a sequence -----

  lemma {:induction false} WithinMember(es: seq<Edge>, ids: set<Id>, e: Edge)
    ensures e in Within(es, ids) <==> e in es && e.from.node in ids && e.to.node in ids
  {
    if es != [] {
      WithinMember(es[1..], ids, e);
    }
  }

  lemma {:induction false} WithinSingleFed(es: seq<Edge>, ids: set<Id>)
    requires SingleFed(es)
    ensures SingleFed(Within(es, ids))
  {
    if es != [] {
      WithinSingleFed(es[1..], ids);
      forall f | f in Within(es[1..], ids)
        ensures f.to != es[0].to
      {
        WithinMember(es[1..], ids, f);
        var j :| 0 <= j < |es[1..]| && es[1..][j] == f;
        assert es[j + 1] == f;
      }
    }
  }

  lemma {:induction false} PickUnique(nodes: seq<Node>, ids: set<Id>)
    requires UniqueIds(nodes)
    ensures UniqueIds(Pick(nodes, ids))
  {
    if nodes != [] {
      PickUnique(nodes[1..], ids);
      forall n | n in Pick(nodes[1..], ids)
        ensures n.id != nodes[0].id
      {
        PickMember(nodes[1..], ids, n);
        var j :| 0 <= j < |nodes[1..]| && nodes[1..][j] == n;
        assert nodes[j + 1] == n;
      }
    }
  }

  lemma {:induction false} PickNodeOf(nodes: seq<Node>, ids: set<Id>, id: Id)
    requires id in ids
    ensures NodeOf(Pick(nodes, ids), id) == NodeOf(nodes, id)
  {
    if nodes != [] {
      PickNodeOf(nodes[1..], ids, id);
    }
  }

  /** Feeds are kept where they come from a kept node. */
  lemma {:induction false} WithinFeeding(es: seq<Edge>, ids: set<Id>, id: Id, port: Port)
    requires id in ids && (Feeding(es, id, port).Some? ==> Feeding(es, id, port).value.from.node in ids)
    ensures Feeding(Within(es, ids), id, port) == Feeding(es, id, port)
  {
    if es != [] && es[0].to != PortRef(id, port) {
      WithinFeeding(es[1..], ids, id, port);
    }
  }

  // ----- The cut graph -----

  /** What the panel gives: a step to preview, and its own output card to end in. */
  predicate Previewable(dag: Dag, id: Id, save: Node) {
    WellFormed(dag) && NodeOf(dag.nodes, id).Some? && !NodeOf(dag.nodes, id).value.process.SaveResult? &&
    (forall n :: n in dag.nodes && n.id == save.id ==> n.process.SaveResult?)
  }

  /** A node with no output leads only to itself. */
  lemma OutputLeadsNowhere(dag: Dag, n: Node, id: Id)
    requires WellFormed(dag) && n in dag.nodes && n.process.SaveResult? && Reach(dag.edges, n.id, id)
    ensures n.id == id
  {
    if n.id != id {
      var c := ReachFirst(dag.edges, n.id, id);
      NodeOfUnique(dag.nodes, n);
    }
  }

  /** The output's id is not a kept node's. */
  lemma SaveNotKept(dag: Dag, id: Id, save: Node)
    requires Previewable(dag, id, save)
    ensures save.id !in Upstream(dag, id) && id in Upstream(dag, id)
    ensures forall n :: n in Pick(dag.nodes, Upstream(dag, id)) ==> !n.process.SaveResult?
  {
    ReachRefl(dag.edges, id);
    NodeOfIn(dag.nodes, id);
    forall n | n in dag.nodes && n.id in Upstream(dag, id)
      ensures !n.process.SaveResult?
    {
      if n.process.SaveResult? {
        OutputLeadsNowhere(dag, n, id);
        NodeOfUnique(dag.nodes, n);
      }
    }
    PickMembers(dag.nodes, Upstream(dag, id));
  }

  /** What feeds a kept node is kept. */
  lemma SourceKept(dag: Dag, id: Id, x: Id, port: Port)
    requires WellFormed(dag) && x in Upstream(dag, id) && Feeding(dag.edges, x, port).Some?
    ensures Feeding(dag.edges, x, port).value.from.node in Upstream(dag, id)
  {
    var e := Feeding(dag.edges, x, port).value;
    FeedingIn(dag.edges, x, port);
    EdgeSourceKept(dag, id, e);
  }

  lemma EdgeSourceKept(dag: Dag, id: Id, e: Edge)
    requires WellFormed(dag) && e in dag.edges && e.to.node in Upstream(dag, id)
    ensures e.from.node in Upstream(dag, id)
  {
    ReachLink(dag.edges, e.from.node, e.to.node);
    ReachTrans(dag.edges, e.from.node, e.to.node, id);
    NodeOfIn(dag.nodes, e.from.node);
  }

  lemma CutFeeding(dag: Dag, id: Id, save: Node, x: Id, port: Port)
    requires Previewable(dag, id, save) && x in Upstream(dag, id)
    ensures Feeding(Cut(dag, id, save).edges, x, port) == Feeding(dag.edges, x, port)
  {
    hide Upstream;
    SaveNotKept(dag, id, save);
    if Feeding(dag.edges, x, port).Some? {
      SourceKept(dag, id, x, port);
    }
    WithinFeeding(dag.edges, Upstream(dag, id), x, port);
    FeedingSnoc(Within(dag.edges, Upstream(dag, id)), OutputEdge(id, save), x, port);
  }

  lemma CutNodeOf(dag: Dag, id: Id, save: Node, x: Id)
    requires Previewable(dag, id, save) && x in Upstream(dag, id)
    ensures NodeOf(Cut(dag, id, save).nodes, x) == NodeOf(dag.nodes, x)
  {
    hide Upstream;
    SaveNotKept(dag, id, save);
    PickNodeOf(dag.nodes, Upstream(dag, id), x);
    NodeOfSnoc(Pick(dag.nodes, Upstream(dag, id)), OutputFor(save), x);
  }

  lemma CutSave(dag: Dag, id: Id, save: Node)
    requires Previewable(dag, id, save)
    ensures NodeOf(Cut(dag, id, save).nodes, save.id) == Some(OutputFor(save))
    ensures Feeding(Cut(dag, id, save).edges, save.id, Data) == Some(OutputEdge(id, save))
    ensures OutputNode(Cut(dag, id, save).nodes) == Some(OutputFor(save))
  {
    hide Upstream;
    var ids := Upstream(dag, id);
    SaveNotKept(dag, id, save);
    PickMembers(dag.nodes, ids);
    NodeOfSnoc(Pick(dag.nodes, ids), OutputFor(save), save.id);
    FeedingSnoc(Within(dag.edges, ids), OutputEdge(id, save), save.id, Data);
    if Feeding(Within(dag.edges, ids), save.id, Data).Some? {
      FeedingIn(Within(dag.edges, ids), save.id, Data);
      WithinMember(dag.edges, ids, Feeding(Within(dag.edges, ids), save.id, Data).value);
    }
    OutputNodeLast(Pick(dag.nodes, ids), OutputFor(save));
  }

  lemma CutWiring(dag: Dag, id: Id, save: Node, x: Id)
    requires Previewable(dag, id, save) && x in Upstream(dag, id)
    ensures Wiring(Cut(dag, id, save), x) == Wiring(dag, x)
  {
    hide Upstream, Cut, Wiring, Previewable, Feeding;
    CutNodeOf(dag, id, save, x);
    forall port
      ensures SourceOf(Cut(dag, id, save).edges, x, port) == SourceOf(dag.edges, x, port)
    {
      CutFeeding(dag, id, save, x, port);
    }
    SameSources(dag, Cut(dag, id, save), x);
  }

  /** Each kept step keeps its type. */
  lemma CutKeepsType(dag: Dag, id: Id, save: Node, x: Id)
    requires Previewable(dag, id, save) && x in Upstream(dag, id)
    ensures Typ(Cut(dag, id, save), x) == Typ(dag, x)
  {
    hide Upstream, Cut, Wiring, Typ;
    var s := Kept(dag, id);
    forall y | y in s
      ensures Wiring(Cut(dag, id, save), y) == Wiring(dag, y)
    {
      CutWiring(dag, id, save, y);
    }
    forall y, z | y in s && Needs(dag, y, z)
      ensures z in s
    {
      NeedsLinked(dag, y, z);
      var e :| e in dag.edges && e.from.node == z && e.to.node == y;
      EdgeSourceKept(dag, id, e);
    }
    TypCongruence(dag, Cut(dag, id, save), s, x);
  }

  // ----- The cut graph is well-formed, typed and whole -----

  lemma WithinFits(dag: Dag, id: Id, save: Node, e: Edge)
    requires Previewable(dag, id, save) && e in Within(dag.edges, Upstream(dag, id))
    ensures EdgeFits(Cut(dag, id, save).nodes, e)
  {
    hide Upstream, Cut;
    WithinMember(dag.edges, Upstream(dag, id), e);
    CutNodeOf(dag, id, save, e.from.node);
    CutNodeOf(dag, id, save, e.to.node);
  }

  lemma OutputEdgeFits(dag: Dag, id: Id, save: Node)
    requires Previewable(dag, id, save)
    ensures EdgeFits(Cut(dag, id, save).nodes, OutputEdge(id, save))
  {
    hide Upstream, Cut, Feeding;
    SaveNotKept(dag, id, save);
    CutNodeOf(dag, id, save, id);
    CutSave(dag, id, save);
    NodeOfIn(dag.nodes, id);
  }

  lemma CutSingleFed(dag: Dag, id: Id, save: Node)
    requires Previewable(dag, id, save)
    ensures SingleFed(Cut(dag, id, save).edges)
  {
    hide Upstream, Feeding;
    var ids := Upstream(dag, id);
    SaveNotKept(dag, id, save);
    WithinSingleFed(dag.edges, ids);
    forall e | e in Within(dag.edges, ids)
      ensures e.to.node != save.id
    {
      WithinMember(dag.edges, ids, e);
    }
  }

  lemma CutNodes(dag: Dag, id: Id, save: Node)
    requires Previewable(dag, id, save)
    ensures var nodes := Cut(dag, id, save).nodes;
            UniqueIds(nodes) && forall n :: n in nodes ==> Known(n.process)
  {
    hide Upstream, Feeding;
    SaveNotKept(dag, id, save);
    PickMembers(dag.nodes, Upstream(dag, id));
    PickUnique(dag.nodes, Upstream(dag, id));
  }

  lemma CutWellFormed(dag: Dag, id: Id, save: Node)
    requires Previewable(dag, id, save)
    ensures WellFormed(Cut(dag, id, save))
  {
    hide Upstream, Feeding, Previewable, EdgeFits, UniqueIds, SingleFed, Within;
    CutNodes(dag, id, save);
    CutSingleFed(dag, id, save);
    OutputEdgeFits(dag, id, save);
    forall e | e in Within(dag.edges, Upstream(dag, id))
      ensures EdgeFits(Cut(dag, id, save).nodes, e)
    {
      WithinFits(dag, id, save, e);
    }
  }

  lemma {:induction false} PathTyped(dag: Dag, p: seq<Id>)
    requires WellFormed(dag) && IsPath(dag.edges, p) && Typ(dag, p[|p| - 1]).Some?
    ensures Typ(dag, p[0]).Some?
  {
    hide WellFormed, Typ, TypeIn, Needs;
    if |p| > 1 {
      assert Linked(dag.edges, p[0], p[1]);
      PathTyped(dag, p[1..]);
      LinkedNeeds(dag, p[1], p[0]);
      var k := TypRank(dag, p[1]);
      NeedsTyped(dag, k, p[1], p[0]);
      TypAt(dag, k - 1, p[0]);
    }
  }

  /** Everything feeding a typed step is typed. */
  lemma UpstreamTyped(dag: Dag, x: Id, id: Id)
    requires WellFormed(dag) && Typ(dag, id).Some? && Reach(dag.edges, x, id)
    ensures Typ(dag, x).Some?
  {
    hide WellFormed, Typ;
    var p :| IsPath(dag.edges, p) && p[0] == x && p[|p| - 1] == id;
    PathTyped(dag, p);
  }

  lemma CutTyped(dag: Dag, id: Id, save: Node)
    requires Previewable(dag, id, save) && Typ(dag, id).Some?
    ensures AllTyped(Cut(dag, id, save))
    ensures Typ(Cut(dag, id, save), save.id) == Typ(dag, id)
  {
    hide Typ, WellFormed, Reach;
    var ids, cut := Upstream(dag, id), Cut(dag, id, save);
    SaveNotKept(dag, id, save);
    PickMembers(dag.nodes, ids);
    forall x | x in ids
      ensures Typ(cut, x).Some? && Typ(cut, x) == Typ(dag, x)
    {
      CutKeepsType(dag, id, save, x);
      UpstreamTyped(dag, x, id);
    }
    SaveTyped(dag, id, save);
  }

  lemma SaveTyped(dag: Dag, id: Id, save: Node)
    requires Previewable(dag, id, save)
    ensures Typ(Cut(dag, id, save), save.id) == Typ(Cut(dag, id, save), id)
  {
    hide Typ, Upstream, Previewable, Cut;
    CutSave(dag, id, save);
    var cut := Cut(dag, id, save);
    StepWiring(cut, save.id, Data);
    TypRule(cut, save.id);
    assert TypsOf(cut, [Some(id)]) == [Typ(cut, id)];
  }

  lemma KeptLink(dag: Dag, id: Id, save: Node, e: Edge)
    requires Previewable(dag, id, save) && e in dag.edges && Reach(dag.edges, e.to.node, id)
    ensures Linked(Cut(dag, id, save).edges, e.from.node, e.to.node)
  {
    hide Upstream;
    KeptWhenReaching(dag, id, e.to.node, e);
    EdgeSourceKept(dag, id, e);
    WithinMember(dag.edges, Upstream(dag, id), e);
  }

  lemma PathKept(dag: Dag, id: Id, save: Node, p: seq<Id>)
    requires Previewable(dag, id, save) && IsPath(dag.edges, p) && p[|p| - 1] == id
    ensures IsPath(Cut(dag, id, save).edges, p)
  {
    hide Upstream, Cut, Previewable;
    forall i | 0 <= i < |p| - 1
      ensures Linked(Cut(dag, id, save).edges, p[i], p[i + 1])
    {
      assert Linked(dag.edges, p[i], p[i + 1]);
      var e :| e in dag.edges && e.from.node == p[i] && e.to.node == p[i + 1];
      SuffixReaches(dag.edges, p, i + 1);
      KeptLink(dag, id, save, e);
    }
  }

  lemma SuffixReaches(es: seq<Edge>, p: seq<Id>, i: nat)
    requires IsPath(es, p) && i < |p|
    ensures Reach(es, p[i], p[|p| - 1])
  {
    var q := p[i..];
    assert IsPath(es, q) && q[0] == p[i] && q[|q| - 1] == p[|p| - 1];
  }

  lemma KeptWhenReaching(dag: Dag, id: Id, x: Id, e: Edge)
    requires WellFormed(dag) && e in dag.edges && e.to.node == x && Reach(dag.edges, x, id)
    ensures x in Upstream(dag, id)
  {
    NodeOfIn(dag.nodes, x);
  }

  /** No step of the cut graph is an orphan. */
  lemma CutNoOrphans(dag: Dag, id: Id, save: Node, n: Node)
    requires Previewable(dag, id, save) && n in Cut(dag, id, save).nodes
    ensures !IsOrphan(Cut(dag, id, save), n.id)
  {
    var cut := Cut(dag, id, save);
    CutSave(dag, id, save);
    if n.id != save.id {
      PickMember(dag.nodes, Upstream(dag, id), n);
      var p :| IsPath(dag.edges, p) && p[0] == n.id && p[|p| - 1] == id;
      PathKept(dag, id, save, p);
      assert Reach(cut.edges, n.id, id);
      ReachThenLink(cut.edges, n.id, OutputEdge(id, save));
    }
  }

  lemma SubgraphAcyclic(es: seq<Edge>, es': seq<Edge>)
    requires Acyclic(es') && forall e :: e in es ==> e in es'
    ensures Acyclic(es)
  {
    forall e | e in es
      ensures !Reach(es, e.to.node, e.from.node)
    {
      if Reach(es, e.to.node, e.from.node) {
        ReachMono(es, es', e.to.node, e.from.node);
      }
    }
  }

  lemma CutAcyclic(dag: Dag, id: Id, save: Node)
    requires Previewable(dag, id, save) && Acyclic(dag.edges)
    ensures Acyclic(Cut(dag, id, save).edges)
  {
    hide Upstream;
    var ids := Upstream(dag, id);
    var kept := Within(dag.edges, ids);
    forall e
      ensures e in kept ==> e in dag.edges
    {
      WithinMember(dag.edges, ids, e);
    }
    SubgraphAcyclic(kept, dag.edges);
    SaveNotKept(dag, id, save);
    if Reach(kept, save.id, id) {
      var c := ReachFirst(kept, save.id, id);
      var e :| e in kept && e.from.node == save.id && e.to.node == c;
      WithinMember(dag.edges, ids, e);
    }
    AcyclicAddEdge(kept, OutputEdge(id, save));
  }

  // ----- Values -----

  ghost predicate SameSteps(dag: Dag, dag': Dag, s: iset<Id>) {
    (forall x :: x in s ==> NodeOf(dag'.nodes, x) == NodeOf(dag.nodes, x)) &&
    (forall x, port :: x in s ==> SourceOf(dag'.edges, x, port) == SourceOf(dag.edges, x, port)) &&
    (forall x, port :: x in s && SourceOf(dag.edges, x, port).Some? ==> SourceOf(dag.edges, x, port).value in s)
  }

  /** Values agree where the steps and all that feeds them do. */
  lemma {:induction false} DagTermCongruence(dag: Dag, dag': Dag, s: iset<Id>, scope: Scope, n: nat, x: Id)
    requires SameSteps(dag, dag', s) && x in s
    ensures DagTerm(dag', scope, n, x) == DagTerm(dag, scope, n, x)
    decreases n, 0
  {
    hide NodeValue, SourceOf;
    if n > 0 && NodeOf(dag.nodes, x).Some? {
      NodeValueCongruence(dag, dag', s, scope, n - 1, NodeOf(dag.nodes, x).value);
    }
  }

  lemma {:induction false} NodeValueCongruence(dag: Dag, dag': Dag, s: iset<Id>, scope: Scope, n: nat, node: Node)
    requires SameSteps(dag, dag', s) && node.id in s
    ensures NodeValue(dag', scope, n, node) == NodeValue(dag, scope, n, node)
    decreases n, 2
  {
    SameNames(dag, dag', s, node);
    hide SameSteps, SourceOf, FedSource, DagTerm, ArgTerm, ArgNames, CallTerm;
    forall k | k in ArgNames(dag, node)
      ensures ArgTerm(dag', scope, n, node, k) == ArgTerm(dag, scope, n, node, k)
    {
      ArgCongruence(dag, dag', s, scope, n, node, k);
    }
    assert ArgTerms(dag', scope, n, node) == ArgTerms(dag, scope, n, node);
  }

  lemma {:induction false} ArgCongruence(dag: Dag, dag': Dag, s: iset<Id>, scope: Scope, n: nat, node: Node, k: string)
    requires SameSteps(dag, dag', s) && node.id in s && k in ArgNames(dag, node)
    ensures k in ArgNames(dag', node) && ArgTerm(dag', scope, n, node, k) == ArgTerm(dag, scope, n, node, k)
    decreases n, 1
  {
    hide SourceOf, DagTerm;
    SameNames(dag, dag', s, node);
    var fed := FedSource(dag, node, k);
    if fed.Some? {
      DagTermCongruence(dag, dag', s, scope, n, fed.value);
    }
  }

  lemma SameNames(dag: Dag, dag': Dag, s: iset<Id>, node: Node)
    requires SameSteps(dag, dag', s) && node.id in s
    ensures ArgNames(dag', node) == ArgNames(dag, node)
    ensures forall k :: FedSource(dag', node, k) == FedSource(dag, node, k)
  {
    hide SourceOf;
  }

  lemma CutSameSteps(dag: Dag, id: Id, save: Node)
    requires Previewable(dag, id, save)
    ensures SameSteps(dag, Cut(dag, id, save), Kept(dag, id))
  {
    hide Upstream, Cut, Feeding, Previewable;
    forall x | x in Upstream(dag, id)
      ensures NodeOf(Cut(dag, id, save).nodes, x) == NodeOf(dag.nodes, x)
    {
      CutNodeOf(dag, id, save, x);
    }
    forall x, port | x in Upstream(dag, id)
      ensures SourceOf(Cut(dag, id, save).edges, x, port) == SourceOf(dag.edges, x, port)
      ensures SourceOf(dag.edges, x, port).Some? ==> SourceOf(dag.edges, x, port).value in Upstream(dag, id)
    {
      CutFeeding(dag, id, save, x, port);
      PreviewableWellFormed(dag, id, save);
      if Feeding(dag.edges, x, port).Some? {
        SourceKept(dag, id, x, port);
      }
    }
  }

  lemma PreviewableWellFormed(dag: Dag, id: Id, save: Node)
    requires Previewable(dag, id, save)
    ensures WellFormed(dag)
  {
  }

  /** Each kept step keeps its value. */
  lemma CutKeepsValue(dag: Dag, id: Id, save: Node, x: Id, scope: Scope, n: nat)
    requires Previewable(dag, id, save) && x in Upstream(dag, id)
    ensures DagTerm(Cut(dag, id, save), scope, n, x) == DagTerm(dag, scope, n, x)
  {
    CutSameSteps(dag, id, save);
    hide Upstream, Cut, Previewable, SameSteps, DagTerm;
    DagTermCongruence(dag, Cut(dag, id, save), Kept(dag, id), scope, n, x);
  }

  /** The output's parameters, resolved. */
  ghost function ParamTerms(scope: Scope, n: nat, params: map<string, Json>): map<string, Term> {
    map k | k in params :: Resolve(scope, n, params[k])
  }

  lemma OnlyDataFed(dag: Dag, out: Node)
    requires out.process.SaveResult? && Feeding(dag.edges, out.id, Data).Some?
    ensures FedNames(dag.edges, out.id, Inputs(SaveResult)) == {"data"}
    ensures FedSource(dag, out, "data") == SourceOf(dag.edges, out.id, Data)
  {
    assert Inputs(SaveResult) == [Data] && PortName(Data) == "data";
  }

  /** The cut graph's output is `save_result`, with the output card's own parameters,
      of the selected step's value in the full graph. */
  lemma CutOutputValue(dag: Dag, id: Id, save: Node, scope: Scope, n: nat)
    requires Previewable(dag, id, save)
    ensures NodeValue(Cut(dag, id, save), scope, n, OutputFor(save))
         == CallTerm(SaveResult, ParamTerms(scope, n, save.params)["data" := DagTerm(dag, scope, n, id)])
  {
    hide Upstream, Cut, Previewable, DagTerm, Resolve, FedNames, FedSource, CallTerm;
    var cut, out := Cut(dag, id, save), OutputFor(save);
    CutSave(dag, id, save);
    SaveNotKept(dag, id, save);
    CutKeepsValue(dag, id, save, id, scope, n);
    OnlyDataFed(cut, out);
    forall k | k in ArgNames(cut, out)
      ensures ArgTerm(cut, scope, n, out, k)
           == if k == "data" then DagTerm(dag, scope, n, id) else Resolve(scope, n, save.params[k])
    {
      FedNamed(cut, out, k);
    }
    assert ArgTerms(cut, scope, n, out)
        == ParamTerms(scope, n, save.params)["data" := DagTerm(dag, scope, n, id)];
  }

  /** Previewing a step previews that step: on a well-formed graph, cutting at a typed
      step gives a well-formed graph that types, has no orphan, keeps each kept step's
      type and value, and outputs the step's own value in the full graph, whatever graph the
      references of parameters are read in. */
  lemma PreviewPreviews(dag: Dag, id: Id, save: Node)
    requires Previewable(dag, id, save) && Typ(dag, id).Some?
    ensures Truncated(dag, id, save) == Some(Cut(dag, id, save))
    ensures var cut := Cut(dag, id, save);
            WellFormed(cut) && AllTyped(cut) && (forall n :: n in cut.nodes ==> !IsOrphan(cut, n.id))
    ensures var cut := Cut(dag, id, save);
            (forall x :: x in Upstream(dag, id) ==> Typ(cut, x) == Typ(dag, x)) &&
            (forall x, scope, n: nat :: x in Upstream(dag, id) ==>
              DagTerm(cut, scope, n, x) == DagTerm(dag, scope, n, x))
    ensures forall scope, n: nat ::
      NodeValue(Cut(dag, id, save), scope, n, OutputFor(save))
      == CallTerm(SaveResult, ParamTerms(scope, n, save.params)["data" := DagTerm(dag, scope, n, id)])
  {
    assert Truncated(dag, id, save) == Some(Cut(dag, id, save));
    hide Upstream, Cut, Previewable, DagTerm, NodeValue, Typ, IsOrphan, WellFormed, CallTerm, AllTyped, ParamTerms;
    CutWellFormed(dag, id, save);
    CutTyped(dag, id, save);
    forall n | n in Cut(dag, id, save).nodes
      ensures !IsOrphan(Cut(dag, id, save), n.id)
    {
      CutNoOrphans(dag, id, save, n);
    }
    forall x | x in Upstream(dag, id)
      ensures Typ(Cut(dag, id, save), x) == Typ(dag, x)
    {
      CutKeepsType(dag, id, save, x);
    }
    forall x, scope, n: nat | x in Upstream(dag, id)
      ensures DagTerm(Cut(dag, id, save), scope, n, x) == DagTerm(dag, scope, n, x)
    {
      CutKeepsValue(dag, id, save, x, scope, n);
    }
    forall scope, n: nat {
      CutOutputValue(dag, id, save, scope, n);
    }
  }

  /** What the panel sends: the lowered cut graph denotes `save_result` of the selected
      step's value in the full graph, and nothing else. */
  lemma PreviewLowers(dag: Dag, id: Id, save: Node, graph: Scope, scope: Scope, n: nat)
    requires Previewable(dag, id, save) && Typ(dag, id).Some? && Lowers(Cut(dag, id, save), graph)
    requires ParamsLowerable(save) && forall node :: node in dag.nodes ==> ParamsLowerable(node)
    ensures Resolve(scope, n, Child(graph, map[]))
         == TFun({CallTerm(SaveResult, ParamTerms(graph, n, save.params)["data" := DagTerm(dag, graph, n, id)])})
  {
    var cut := Cut(dag, id, save);
    CutParams(dag, id, save);
    CutSave(dag, id, save);
    hide Upstream, Cut, Previewable, DagTerm, NodeValue, Typ, WellFormed, CallTerm;
    hide ParamTerms, ParamsLowerable, Lowers, Resolve;
    CutWellFormed(dag, id, save);
    CutTyped(dag, id, save);
    TypedAcyclic(cut);
    LoweredGraphTerm(cut, graph, n, scope);
    CutOutputValue(dag, id, save, graph, n);
  }

  lemma CutParams(dag: Dag, id: Id, save: Node)
    requires Previewable(dag, id, save)
    requires ParamsLowerable(save) && forall node :: node in dag.nodes ==> ParamsLowerable(node)
    ensures forall node :: node in Cut(dag, id, save).nodes ==> ParamsLowerable(node)
  {
    hide Upstream;
    PickMembers(dag.nodes, Upstream(dag, id));
  }

  // ----- Cutting at any id -----

  /** The panel's output card: no other step has its id. */
  predicate PanelOutput(dag: Dag, save: Node) {
    forall n :: n in dag.nodes && n.id == save.id ==> n.process == SaveResult
  }

  /** A card on the canvas that gives a cube. */
  predicate GivesCube(dag: Dag, id: Id) {
    exists n :: n in dag.nodes && n.id == id && n.process != SaveResult
  }

  lemma CubeGiven(dag: Dag, id: Id)
    requires WellFormed(dag)
    ensures GivesCube(dag, id) <==> NodeOf(dag.nodes, id).Some? && !NodeOf(dag.nodes, id).value.process.SaveResult?
  {
    if NodeOf(dag.nodes, id).Some? { NodeOfIn(dag.nodes, id); }
    forall n | n in dag.nodes && n.id == id
      ensures NodeOf(dag.nodes, id) == Some(n)
    {
      NodeOfUnique(dag.nodes, n);
    }
  }

  /** Cutting gives a graph exactly at the cards that give a cube: at the output, and off the
      canvas, there is nothing to cut. */
  lemma TruncatedWhen(dag: Dag, id: Id, save: Node)
    requires WellFormed(dag)
    ensures Truncated(dag, id, save).Some? <==> GivesCube(dag, id)
  {
    hide Cut, GivesCube, WellFormed;
    CubeGiven(dag, id);
  }

  /** The cut at `id`, ending in the panel's output: well-formed wiring, of the cards that lead
      to `id` and the edges between them, and one output fed by `id`; acyclic if the graph was. */
  ghost predicate SoundCut(dag: Dag, id: Id, save: Node, cut: Dag) {
    WellFormed(cut) && OutputNode(cut.nodes) == Some(Node(save.id, SaveResult, save.params)) &&
    (forall n :: n in cut.nodes && n.process == SaveResult ==> n == Node(save.id, SaveResult, save.params)) &&
    (forall n :: n in cut.nodes && n.process != SaveResult <==>
      n in dag.nodes && n.process != SaveResult && Reach(dag.edges, n.id, id)) &&
    (forall e :: e in cut.edges <==>
      (e in dag.edges && Reach(dag.edges, e.to.node, id)) ||
      e == Edge(PortRef(id, Named("")), PortRef(save.id, Data))) &&
    (Acyclic(dag.edges) ==> Acyclic(cut.edges))
  }

  /** Whatever the id, a graph the cut gives is such a one. */
  lemma TruncatedSound(dag: Dag, id: Id, save: Node)
    requires WellFormed(dag) && PanelOutput(dag, save) && Truncated(dag, id, save).Some?
    ensures SoundCut(dag, id, save, Truncated(dag, id, save).value)
  {
    hide WellFormed, Reach, PanelOutput, Truncated, Cut, Acyclic;
    TruncatedCut(dag, id, save);
    CutWellFormed(dag, id, save);
    CutSave(dag, id, save);
    CutMembers(dag, id, save);
    CutEdges(dag, id, save);
    if Acyclic(dag.edges) { CutAcyclic(dag, id, save); }
  }

  lemma TruncatedCut(dag: Dag, id: Id, save: Node)
    requires WellFormed(dag) && PanelOutput(dag, save) && Truncated(dag, id, save).Some?
    ensures Previewable(dag, id, save) && Truncated(dag, id, save) == Some(Cut(dag, id, save))
  {
    hide WellFormed, Cut;
  }

  lemma CutMembers(dag: Dag, id: Id, save: Node)
    requires Previewable(dag, id, save)
    ensures var cut := Cut(dag, id, save);
            (forall n :: n in cut.nodes && n.process == SaveResult ==> n == Node(save.id, SaveResult, save.params)) &&
            (forall n :: n in cut.nodes && n.process != SaveResult <==>
              n in dag.nodes && n.process != SaveResult && Reach(dag.edges, n.id, id))
  {
    hide Previewable, Reach, Upstream;
    SaveNotKept(dag, id, save);
    PickMembers(dag.nodes, Upstream(dag, id));
    UpstreamMeans(dag, id);
    var kept := Pick(dag.nodes, Upstream(dag, id));
    assert forall n :: n in Cut(dag, id, save).nodes <==> n in kept || n == OutputFor(save);
  }

  lemma CutEdges(dag: Dag, id: Id, save: Node)
    requires WellFormed(dag)
    ensures forall e :: e in Cut(dag, id, save).edges <==>
      (e in dag.edges && Reach(dag.edges, e.to.node, id)) || e == Edge(PortRef(id, Named("")), PortRef(save.id, Data))
  {
    hide Upstream, Reach, WellFormed;
    var ids := Upstream(dag, id);
    forall e
      ensures e in Within(dag.edges, ids) <==> e in dag.edges && Reach(dag.edges, e.to.node, id)
    {
      WithinMember(dag.edges, ids, e);
      if e in dag.edges { EdgeKept(dag, id, e); }
    }
  }

  lemma EdgeKept(dag: Dag, id: Id, e: Edge)
    requires WellFormed(dag) && e in dag.edges
    ensures e.to.node in Upstream(dag, id) <==> Reach(dag.edges, e.to.node, id)
    ensures e.to.node in Upstream(dag, id) ==> e.from.node in Upstream(dag, id)
  {
    if Reach(dag.edges, e.to.node, id) { KeptWhenReaching(dag, id, e.to.node, e); }
    if e.to.node in Upstream(dag, id) { EdgeSourceKept(dag, id, e); }
  }

  lemma UpstreamMeans(dag: Dag, id: Id)
    ensures forall n :: n in dag.nodes ==> (n.id in Upstream(dag, id) <==> Reach(dag.edges, n.id, id))
  {
  }
}
