/** The edge-admission rule, and what every graph built by it satisfies. */
module Admission {
  import opened Wrappers
  import opened Stages
  import opened Graph
  import opened Paths
  import opened Typing
  import opened Heads

  datatype Reason =
    | NotOnCanvas
    | NoOutput
    | NoInput
    | FeedsItself
    | AlreadyConnected
    | WouldLoop
    | NotComplete
    | OtherCollection
    | Mistyped(step: Id)

  datatype Verdict = Allowed | Refused(reason: Reason)

  function WithEdge(dag: Dag, e: Edge): Dag {
    dag.(edges := dag.edges + [e])
  }

  function WithNode(dag: Dag, n: Node): Dag {
    dag.(nodes := dag.nodes + [n])
  }

  // ----- The rule -----

  /** What feeds the input of a join other than `port`. */
  function OtherFeed(dag: Dag, to: Id, port: Port): Option<Edge> {
    Feeding(dag.edges, to, OtherPort(port))
  }

  /** A join whose other branch loads a different collection. */
  predicate JoinDiffers(dag: Dag, e: Edge) {
    var to := NodeOf(dag.nodes, e.to.node);
    to.Some? && to.value.process.MergeCubes? &&
    var other := OtherFeed(dag, e.to.node, e.to.port);
    other.Some? &&
    var a := Collection(WithEdge(dag, e), e.from.node);
    var b := Collection(WithEdge(dag, e), other.value.from.node);
    a.Some? && b.Some? && a != b
  }

  /** A fully fed node at or downstream of `to` that does not type. */
  ghost predicate Broken(dag: Dag, to: Id, n: Node) {
    (n.id == to || Reach(dag.edges, to, n.id)) && Typ(dag, n.id).None? && AllInputsFed(dag, n.id)
  }

  ghost function FirstBroken(dag: Dag, to: Id, nodes: seq<Node>): (r: Option<Id>)
    ensures r.None? <==> forall n :: n in nodes ==> !Broken(dag, to, n)
  {
    if nodes == [] then None
    else if Broken(dag, to, nodes[0]) then Some(nodes[0].id)
    else FirstBroken(dag, to, nodes[1..])
  }

  /** The verdict on a candidate edge, its checks in the order they are made. */
  ghost function EdgeVerdict(dag: Dag, e: Edge): Verdict {
    var from, to := NodeOf(dag.nodes, e.from.node), NodeOf(dag.nodes, e.to.node);
    if from.None? || to.None? then Refused(NotOnCanvas)
    else if e.from.port != Out || !HasOutput(from.value.process) then Refused(NoOutput)
    else if e.to.port !in Inputs(to.value.process) then Refused(NoInput)
    else if e.from.node == e.to.node then Refused(FeedsItself)
    else if Feeding(dag.edges, e.to.node, e.to.port).Some? then Refused(AlreadyConnected)
    else if Reach(dag.edges, e.to.node, e.from.node) then Refused(WouldLoop)
    else if Typ(WithEdge(dag, e), e.from.node).None? then Refused(NotComplete)
    else if JoinDiffers(dag, e) then Refused(OtherCollection)
    else
      match FirstBroken(WithEdge(dag, e), e.to.node, dag.nodes)
      case Some(id) => Refused(Mistyped(id))
      case None => Allowed
  }

  /** Whether `e` may be added: one typer over the candidate answers every query. */
  method EdgeAllowed(dag: Dag, e: Edge) returns (verdict: Verdict)
    ensures verdict == EdgeVerdict(dag, e)
  {
    hide Typ, Reach, Collection, AllInputsFed, Feeding;
    var from, to := NodeOf(dag.nodes, e.from.node), NodeOf(dag.nodes, e.to.node);
    if from.None? || to.None? {
      return Refused(NotOnCanvas);
    }
    if e.from.port != Out || !HasOutput(from.value.process) {
      return Refused(NoOutput);
    }
    if e.to.port !in Inputs(to.value.process) {
      return Refused(NoInput);
    }
    if e.from.node == e.to.node {
      return Refused(FeedsItself);
    }
    if Feeding(dag.edges, e.to.node, e.to.port).Some? {
      return Refused(AlreadyConnected);
    }
    var loops := Reaches(dag, e.to.node, e.from.node);
    if loops {
      return Refused(WouldLoop);
    }
    var candidate := WithEdge(dag, e);
    var typer := new Typer(candidate);
    var given := typer.TypeOf(e.from.node);
    if given.None? {
      return Refused(NotComplete);
    }
    if to.value.process.MergeCubes? {
      var other := OtherFeed(dag, e.to.node, e.to.port);
      if other.Some? {
        var a := CollectionOf(candidate, e.from.node);
        var b := CollectionOf(candidate, other.value.from.node);
        if a.Some? && b.Some? && a != b {
          return Refused(OtherCollection);
        }
      }
    }
    var nodes := candidate.nodes;
    for i := 0 to |nodes|
      invariant typer.Valid() && typer.visiting == {} && typer.dag == candidate
      invariant FirstBroken(candidate, e.to.node, nodes) == FirstBroken(candidate, e.to.node, nodes[i..])
    {
      var node := nodes[i];
      assert nodes[i..][1..] == nodes[i + 1..];
      if node.id != e.to.node {
        var downstream := Reaches(candidate, e.to.node, node.id);
        if !downstream {
          continue;
        }
      }
      var stage := typer.TypeOf(node.id);
      if stage.Some? {
        continue;
      }
      if AllInputsFed(candidate, node.id) {
        return Refused(Mistyped(node.id));
      }
    }
    return Allowed;
  }

  // ----- The always-valid graph -----

  /** What the editor keeps of every graph: the wiring is well-formed and acyclic, every
      edge carries a typed cube, and every fully fed step types. */
  ghost predicate Valid(dag: Dag) {
    WellFormed(dag) && Acyclic(dag.edges) &&
    (forall e :: e in dag.edges ==> e.from.port == Out && Typ(dag, e.from.node).Some?) &&
    (forall n :: n in dag.nodes && AllInputsFed(dag, n.id) ==> Typ(dag, n.id).Some?)
  }

  predicate LoadsNamed(dag: Dag) {
    forall n :: n in dag.nodes && n.process.LoadCollection? ==> "id" in n.params && n.params["id"].Str?
  }

  /** Every load that reaches a typed step names the collection found by following
      first inputs from it. */
  ghost predicate OneCollection(dag: Dag) {
    forall x, l :: Typ(dag, x).Some? && IsLoad(dag, l) && Reach(dag.edges, l, x)
      ==> NodeCollection(dag, l) == Collection(dag, x)
  }

  /** A step whose port is unfed does not type. */
  lemma UnfedUntyped(dag: Dag, id: Id, port: Port)
    requires NodeOf(dag.nodes, id).Some? && port in Inputs(NodeOf(dag.nodes, id).value.process)
    requires Feeding(dag.edges, id, port).None?
    ensures Typ(dag, id).None?
  {
    TypRule(dag, id);
    var w := Wiring(dag, id).value;
    var i :| 0 <= i < |w.sources| && Inputs(w.process)[i] == port;
    assert TypsOf(dag, w.sources)[i] == TypOf(dag, w.sources[i]);
    assert None in TypsOf(dag, w.sources);
  }

  /** In a valid graph a step with a free port feeds nothing. */
  lemma FreePortIsSink(dag: Dag, id: Id, port: Port, x: Id)
    requires Valid(dag)
    requires NodeOf(dag.nodes, id).Some? && port in Inputs(NodeOf(dag.nodes, id).value.process)
    requires Feeding(dag.edges, id, port).None?
    requires Reach(dag.edges, id, x)
    ensures x == id
  {
    UnfedUntyped(dag, id, port);
    if x != id {
      var c := ReachFirst(dag.edges, id, x);
    }
  }

  /** The structural checks of the rule. */
  ghost predicate Connectable(dag: Dag, e: Edge) {
    EdgeFits(dag.nodes, e) && e.from.port == Out && e.from.node != e.to.node &&
    Feeding(dag.edges, e.to.node, e.to.port).None? &&
    !Reach(dag.edges, e.to.node, e.from.node)
  }

  /** Adding a connectable edge to a valid graph changes the type of its target alone. */
  lemma OnlyTargetRetyped(dag: Dag, e: Edge, x: Id)
    requires Valid(dag) && Connectable(dag, e) && x != e.to.node
    ensures Typ(WithEdge(dag, e), x) == Typ(dag, x)
  {
    if Reach(dag.edges, e.to.node, x) {
      FreePortIsSink(dag, e.to.node, e.to.port, x);
    }
    EdgeFrame(dag, e, x);
  }

  lemma WellFormedWithEdge(dag: Dag, e: Edge)
    requires WellFormed(dag) && EdgeFits(dag.nodes, e) && Feeding(dag.edges, e.to.node, e.to.port).None?
    ensures WellFormed(WithEdge(dag, e))
  {
    var es := dag.edges + [e];
    forall i, j | 0 <= i < j < |es|
      ensures es[i].to != es[j].to
    {
      assert es[i] in dag.edges;
    }
  }

  lemma FedElsewhere(dag: Dag, e: Edge, id: Id)
    requires id != e.to.node
    ensures AllInputsFed(WithEdge(dag, e), id) <==> AllInputsFed(dag, id)
  {
    if NodeOf(dag.nodes, id).Some? {
      forall port
        ensures Feeding(dag.edges + [e], id, port) == Feeding(dag.edges, id, port)
      {
        FeedingSnoc(dag.edges, e, id, port);
      }
    }
  }

  /** Acceptance by the rule, on a valid graph: the structural checks, a typed source,
      branches that agree, and a target that types if it is now fully fed. */
  lemma AllowedWhen(dag: Dag, e: Edge)
    requires Valid(dag)
    ensures EdgeVerdict(dag, e) == Allowed <==>
      Connectable(dag, e) && Typ(dag, e.from.node).Some? && !JoinDiffers(dag, e) &&
      (AllInputsFed(WithEdge(dag, e), e.to.node) ==> Typ(WithEdge(dag, e), e.to.node).Some?)
  {
    if Connectable(dag, e) {
      var dag' := WithEdge(dag, e);
      OnlyTargetRetyped(dag, e, e.from.node);
      forall n | n in dag.nodes && n.id != e.to.node
        ensures !Broken(dag', e.to.node, n)
      {
        OnlyTargetRetyped(dag, e, n.id);
        FedElsewhere(dag, e, n.id);
      }
      var to := NodeOf(dag.nodes, e.to.node).value;
      forall n | n in dag.nodes && n.id == to.id
        ensures n == to
      {
        NodeOfUnique(dag.nodes, n);
      }
    }
  }

  /** An accepted edge keeps the graph valid. */
  lemma AllowedKeepsValid(dag: Dag, e: Edge)
    requires Valid(dag) && EdgeVerdict(dag, e) == Allowed
    ensures Valid(WithEdge(dag, e))
  {
    AllowedWhen(dag, e);
    var dag' := WithEdge(dag, e);
    WellFormedWithEdge(dag, e);
    AcyclicAddEdge(dag.edges, e);
    UnfedUntyped(dag, e.to.node, e.to.port);
    forall f | f in dag'.edges
      ensures f.from.port == Out && Typ(dag', f.from.node).Some?
    {
      OnlyTargetRetyped(dag, e, f.from.node);
    }
    forall n | n in dag'.nodes && AllInputsFed(dag', n.id)
      ensures Typ(dag', n.id).Some?
    {
      if n.id != e.to.node {
        FedElsewhere(dag, e, n.id);
        OnlyTargetRetyped(dag, e, n.id);
      }
    }
  }

  // ----- One collection -----

  /** The wiring of every other node survives a new edge. */
  lemma WiringElsewhere(dag: Dag, e: Edge, x: Id)
    requires x != e.to.node
    ensures Wiring(WithEdge(dag, e), x) == Wiring(dag, x)
  {
    forall port
      ensures SourceOf(dag.edges + [e], x, port) == SourceOf(dag.edges, x, port)
    {
      FeedingSnoc(dag.edges, e, x, port);
    }
    SameSources(dag, WithEdge(dag, e), x);
  }

  lemma CollectionElsewhere(dag: Dag, e: Edge, x: Id)
    requires Valid(dag) && Connectable(dag, e) && x != e.to.node
    ensures Collection(WithEdge(dag, e), x) == Collection(dag, x)
  {
    hide Wiring, HeadFrom, Typ;
    var s := Others(e.to.node);
    forall y | y in s
      ensures Wiring(WithEdge(dag, e), y) == Wiring(dag, y)
    {
      WiringElsewhere(dag, e, y);
    }
    forall y, z | y in s && Needs(dag, y, z)
      ensures z in s
    {
      NeedsLinked(dag, y, z);
      ReachLink(dag.edges, z, y);
      if z == e.to.node {
        FreePortIsSink(dag, z, e.to.port, y);
      }
    }
    HeadFromCongruence(dag, WithEdge(dag, e), s, x, {});
  }

  /** A load reaching another typed node reaches it through one of its sources. */
  lemma ReachThroughSource(dag: Dag, l: Id, x: Id) returns (c: Id)
    requires WellFormed(dag) && Reach(dag.edges, l, x) && l != x
    ensures Reach(dag.edges, l, c) && Needs(dag, x, c)
  {
    c := ReachLast(dag.edges, l, x);
    LinkedNeeds(dag, x, c);
  }

  /** All sources of a fully wired target trace back to the target's collection. */
  lemma SourcesAgree(dag: Dag, e: Edge, c: Id)
    requires Valid(dag) && EdgeVerdict(dag, e) == Allowed && LoadsNamed(dag) && OneCollection(dag)
    requires Typ(WithEdge(dag, e), e.to.node).Some? && Needs(WithEdge(dag, e), e.to.node, c)
    ensures c != e.to.node
    ensures Collection(WithEdge(dag, e), c) == Collection(WithEdge(dag, e), e.to.node)
  {
    var dag' := WithEdge(dag, e);
    AllowedKeepsValid(dag, e);
    AllowedWhen(dag, e);
    NeedsLinked(dag', e.to.node, c);
    ReachLink(dag'.edges, c, e.to.node);
    LinkNotSelf(dag'.edges, c, e.to.node);
    HeadStep(dag', e.to.node);
    var first := FirstSource(dag', e.to.node).value;
    if !NodeOf(dag'.nodes, e.to.node).value.process.MergeCubes? {
      OnlySource(dag', e.to.node, c);
    } else if c != first {
      var other := JoinSources(dag, e, c, first);
      EndsNamed(dag', e);
      EndsNamed(dag', other);
    }
  }

  /** The two sources of a join that `e` completes: that of `e`, and its other feed's. */
  lemma JoinSources(dag: Dag, e: Edge, c: Id, first: Id) returns (other: Edge)
    requires EdgeFits(dag.nodes, e) && Feeding(dag.edges, e.to.node, e.to.port).None?
    requires NodeOf(dag.nodes, e.to.node).value.process.MergeCubes?
    requires Needs(WithEdge(dag, e), e.to.node, c) && c != first
    requires FirstSource(WithEdge(dag, e), e.to.node) == Some(first)
    ensures OtherFeed(dag, e.to.node, e.to.port) == Some(other) && other in dag.edges
    ensures (c == e.from.node && first == other.from.node) || (first == e.from.node && c == other.from.node)
  {
    hide Feeding;
    var dag' := WithEdge(dag, e);
    JoinWiring(dag', e.to.node);
    FeedingSnoc(dag.edges, e, e.to.node, Cube1);
    FeedingSnoc(dag.edges, e, e.to.node, Cube2);
    other := Feeding(dag.edges, e.to.node, OtherPort(e.to.port)).value;
    FeedingIn(dag.edges, e.to.node, OtherPort(e.to.port));
  }

  /** A step other than a join has one source at most. */
  lemma OnlySource(dag: Dag, id: Id, c: Id)
    requires Needs(dag, id, c) && !NodeOf(dag.nodes, id).value.process.MergeCubes?
    ensures FirstSource(dag, id) == Some(c)
  {
    var w := Wiring(dag, id).value;
    var i :| 0 <= i < |w.sources| && w.sources[i] == Some(c);
    assert |w.sources| == |Inputs(w.process)| <= 1;
  }

  lemma LinkNotSelf(es: seq<Edge>, a: Id, b: Id)
    requires Acyclic(es) && Linked(es, a, b)
    ensures a != b
  {
    ReachRefl(es, a);
  }

  /** With every load named, an edge's source traces back to a collection. */
  lemma EndsNamed(dag: Dag, e: Edge)
    requires Valid(dag) && LoadsNamed(dag) && e in dag.edges
    ensures Collection(dag, e.from.node).Some?
  {
    TypedHead(dag, e.from.node);
    NodeOfIn(dag.nodes, Head(dag, e.from.node).value);
  }

  /** An accepted edge keeps every step to one collection. */
  lemma AllowedKeepsOneCollection(dag: Dag, e: Edge)
    requires Valid(dag) && EdgeVerdict(dag, e) == Allowed && LoadsNamed(dag) && OneCollection(dag)
    ensures OneCollection(WithEdge(dag, e))
  {
    var dag' := WithEdge(dag, e);
    AllowedKeepsValid(dag, e);
    AllowedWhen(dag, e);
    forall x, l | Typ(dag', x).Some? && IsLoad(dag', l) && Reach(dag'.edges, l, x)
      ensures NodeCollection(dag', l) == Collection(dag', x)
    {
      if x != e.to.node {
        LoadAgreesElsewhere(dag, e, x, l);
      } else if l == x {
        assert false;
      } else {
        var c := ReachThroughSource(dag', l, x);
        SourcesAgree(dag, e, c);
        NeedsLinked(dag', x, c);
        LoadAgreesElsewhere(dag, e, c, l);
      }
    }
  }

  lemma LoadAgreesElsewhere(dag: Dag, e: Edge, x: Id, l: Id)
    requires Valid(dag) && Connectable(dag, e) && OneCollection(dag) && x != e.to.node
    requires Typ(WithEdge(dag, e), x).Some? && IsLoad(dag, l) && Reach(WithEdge(dag, e).edges, l, x)
    ensures NodeCollection(dag, l) == Collection(WithEdge(dag, e), x)
  {
    OnlyTargetRetyped(dag, e, x);
    CollectionElsewhere(dag, e, x);
    ReachAddEdge(dag.edges, e, l, x);
    if Reach(dag.edges, e.to.node, x) {
      FreePortIsSink(dag, e.to.node, e.to.port, x);
    }
  }

  // ----- The rule is exact -----

  lemma ValidAfterConnectable(dag: Dag, e: Edge)
    requires Valid(dag) && Valid(WithEdge(dag, e))
    ensures Connectable(dag, e)
  {
    hide Typ, AllInputsFed, Reach, Feeding;
    var es := dag.edges + [e];
    assert e in es;
    ReachRefl(es, e.to.node);
    ReachAddEdge(dag.edges, e, e.to.node, e.from.node);
    AcyclicAddEdge(dag.edges, e);
    UnfedBefore(dag.edges, e);
  }

  lemma UnfedBefore(es: seq<Edge>, e: Edge)
    requires SingleFed(es + [e])
    ensures Feeding(es, e.to.node, e.to.port).None?
  {
    forall i | 0 <= i < |es|
      ensures es[i].to != e.to
    {
      assert (es + [e])[i] == es[i] && (es + [e])[|es|] == e;
    }
    if Feeding(es, e.to.node, e.to.port).Some? {
      FeedingIn(es, e.to.node, e.to.port);
    }
  }

  /** In a graph of one collection the branches of a fed join agree. */
  lemma JoinAgrees(dag: Dag, e: Edge)
    requires Valid(dag) && Connectable(dag, e) && Valid(WithEdge(dag, e)) && OneCollection(WithEdge(dag, e))
    ensures !JoinDiffers(dag, e)
  {
    if JoinDiffers(dag, e) {
      var dag' := WithEdge(dag, e);
      var f := OtherFeed(dag, e.to.node, e.to.port).value;
      JoinFed(dag, e);
      NodeOfIn(dag.nodes, e.to.node);
      FeedingIn(dag.edges, e.to.node, OtherPort(e.to.port));
      SourceCollection(dag', e);
      SourceCollection(dag', f);
    }
  }

  lemma JoinFed(dag: Dag, e: Edge)
    requires EdgeFits(dag.nodes, e)
    requires NodeOf(dag.nodes, e.to.node).value.process.MergeCubes?
    requires OtherFeed(dag, e.to.node, e.to.port).Some?
    ensures AllInputsFed(WithEdge(dag, e), e.to.node)
  {
    hide Feeding;
    FeedingSnoc(dag.edges, e, e.to.node, Cube1);
    FeedingSnoc(dag.edges, e, e.to.node, Cube2);
  }

  lemma SourceCollection(dag: Dag, e: Edge)
    requires Valid(dag) && OneCollection(dag) && e in dag.edges && Typ(dag, e.to.node).Some?
    ensures Collection(dag, e.from.node) == Collection(dag, e.to.node)
  {
    TypedHead(dag, e.from.node);
    ReachThenLink(dag.edges, Head(dag, e.from.node).value, e);
  }

  /** The rule refuses nothing it could have kept: on a valid graph whose loads name
      their collections, an edge out of an output port is accepted exactly when the
      graph with it is again valid and of one collection at every step. */
  lemma EdgeRuleExact(dag: Dag, e: Edge)
    requires Valid(dag) && LoadsNamed(dag) && OneCollection(dag)
    ensures EdgeVerdict(dag, e) == Allowed <==> Valid(WithEdge(dag, e)) && OneCollection(WithEdge(dag, e))
  {
    var dag' := WithEdge(dag, e);
    if EdgeVerdict(dag, e) == Allowed {
      AllowedKeepsValid(dag, e);
      AllowedKeepsOneCollection(dag, e);
    } else if Valid(dag') && OneCollection(dag') {
      assert e in dag'.edges;
      ValidAfterConnectable(dag, e);
      JoinAgrees(dag, e);
      OnlyTargetRetyped(dag, e, e.from.node);
      AllowedWhen(dag, e);
      assert false;
    }
  }

  // ----- Adding steps -----

  lemma WiringBesideNode(dag: Dag, n: Node, x: Id)
    requires NodeOf(dag.nodes, n.id).None? && x != n.id
    ensures Wiring(WithNode(dag, n), x) == Wiring(dag, x)
  {
    NodeOfSnoc(dag.nodes, n, x);
  }

  lemma TypBesideNode(dag: Dag, n: Node, x: Id)
    requires WellFormed(dag) && NodeOf(dag.nodes, n.id).None? && x != n.id
    ensures Typ(WithNode(dag, n), x) == Typ(dag, x) && Head(WithNode(dag, n), x) == Head(dag, x)
  {
    var s := Others(n.id);
    forall y | y in s
      ensures Wiring(WithNode(dag, n), y) == Wiring(dag, y)
    {
      WiringBesideNode(dag, n, y);
    }
    forall y, z | y in s && Needs(dag, y, z)
      ensures z in s
    {
      NeedsLinked(dag, y, z);
    }
    TypCongruence(dag, WithNode(dag, n), s, x);
    HeadFromCongruence(dag, WithNode(dag, n), s, x, {});
  }

  lemma WellFormedWithNode(dag: Dag, n: Node)
    requires WellFormed(dag) && NodeOf(dag.nodes, n.id).None? && Known(n.process)
    ensures WellFormed(WithNode(dag, n))
  {
    forall e | e in dag.edges
      ensures EdgeFits(dag.nodes + [n], e)
    {
      NodeOfSnoc(dag.nodes, n, e.from.node);
      NodeOfSnoc(dag.nodes, n, e.to.node);
    }
  }

  lemma AddStepKeepsValid(dag: Dag, n: Node)
    requires Valid(dag) && NodeOf(dag.nodes, n.id).None? && Known(n.process)
    ensures Valid(WithNode(dag, n))
  {
    var dag' := WithNode(dag, n);
    WellFormedWithNode(dag, n);
    forall e | e in dag'.edges
      ensures Typ(dag', e.from.node).Some?
    {
      TypBesideNode(dag, n, e.from.node);
    }
    forall m | m in dag'.nodes && AllInputsFed(dag', m.id)
      ensures Typ(dag', m.id).Some?
    {
      if m == n {
        LoneStepTyped(dag, n);
      } else {
        FedBesideNode(dag, n, m);
        TypBesideNode(dag, n, m.id);
      }
    }
  }

  lemma FedBesideNode(dag: Dag, n: Node, m: Node)
    requires NodeOf(dag.nodes, n.id).None? && m in dag.nodes
    ensures m.id != n.id && (AllInputsFed(WithNode(dag, n), m.id) <==> AllInputsFed(dag, m.id))
  {
    NodeOfSnoc(dag.nodes, n, m.id);
  }

  lemma LoneStepTyped(dag: Dag, n: Node)
    requires WellFormed(dag) && NodeOf(dag.nodes, n.id).None? && Known(n.process)
    requires AllInputsFed(WithNode(dag, n), n.id)
    ensures Typ(WithNode(dag, n), n.id).Some?
  {
    NodeOfSnoc(dag.nodes, n, n.id);
    if Inputs(n.process) != [] {
      FeedingIn(dag.edges, n.id, Inputs(n.process)[0]);
      assert false;
    }
    TypRule(WithNode(dag, n), n.id);
    assert TypsOf(WithNode(dag, n), []) == [];
  }

  /** A fresh step reaches nothing else, and nothing else reaches it. */
  lemma LoneStepUnreached(dag: Dag, n: Node, l: Id, x: Id)
    requires WellFormed(dag) && NodeOf(dag.nodes, n.id).None?
    requires Reach(dag.edges, l, x) && (l == n.id || x == n.id)
    ensures l == x
  {
    if l != x {
      var first := ReachFirst(dag.edges, l, x);
      var last := ReachLast(dag.edges, l, x);
    }
  }

  lemma AddStepKeepsOneCollection(dag: Dag, n: Node)
    requires Valid(dag) && OneCollection(dag) && NodeOf(dag.nodes, n.id).None? && Known(n.process)
    ensures OneCollection(WithNode(dag, n))
  {
    var dag' := WithNode(dag, n);
    forall x, l | Typ(dag', x).Some? && IsLoad(dag', l) && Reach(dag'.edges, l, x)
      ensures NodeCollection(dag', l) == Collection(dag', x)
    {
      if l == n.id || x == n.id {
        LoneStepUnreached(dag, n, l, x);
      } else {
        CollectionBesideNode(dag, n, l, x);
      }
    }
  }

  lemma CollectionBesideNode(dag: Dag, n: Node, l: Id, x: Id)
    requires WellFormed(dag) && NodeOf(dag.nodes, n.id).None? && l != n.id && x != n.id
    requires Typ(WithNode(dag, n), x).Some?
    ensures Typ(dag, x).Some? && Collection(WithNode(dag, n), x) == Collection(dag, x)
    ensures NodeCollection(WithNode(dag, n), l) == NodeCollection(dag, l)
    ensures IsLoad(WithNode(dag, n), l) <==> IsLoad(dag, l)
  {
    NodeOfSnoc(dag.nodes, n, l);
    TypBesideNode(dag, n, x);
    TypedHead(dag, x);
    NodeOfSnoc(dag.nodes, n, Head(dag, x).value);
  }

  // ----- Every history of edits -----

  datatype Edit = AddStep(node: Node) | Connect(edge: Edge)

  /** One edit: a step is placed unconnected under a fresh id, and an edge is drawn only
      if the rule accepts it. Anything else leaves the graph alone. */
  ghost function Edited(dag: Dag, edit: Edit): Dag {
    match edit
    case AddStep(n) => if NodeOf(dag.nodes, n.id).None? && Known(n.process) then WithNode(dag, n) else dag
    case Connect(e) => if EdgeVerdict(dag, e) == Allowed then WithEdge(dag, e) else dag
  }

  /** The graph after a history of edits of the empty canvas. */
  ghost function Play(edits: seq<Edit>): Dag {
    if edits == [] then Dag([], [])
    else Edited(Play(edits[..|edits| - 1]), edits[|edits| - 1])
  }

  lemma EmptyValid()
    ensures Valid(Dag([], [])) && OneCollection(Dag([], []))
  {
    forall x {
      TypRule(Dag([], []), x);
    }
  }

  /** Whatever is edited, in whatever order, the graph is valid. */
  lemma {:induction false} EveryHistoryValid(edits: seq<Edit>)
    ensures Valid(Play(edits))
  {
    if edits == [] {
      EmptyValid();
    } else {
      var before := Play(edits[..|edits| - 1]);
      EveryHistoryValid(edits[..|edits| - 1]);
      match edits[|edits| - 1]
      case AddStep(n) =>
        if NodeOf(before.nodes, n.id).None? && Known(n.process) { AddStepKeepsValid(before, n); }
      case Connect(e) =>
        if EdgeVerdict(before, e) == Allowed { AllowedKeepsValid(before, e); }
    }
  }

  /** So once every input is fed the whole graph types, and feeds in no cycle. */
  lemma CompleteHistoryTypes(edits: seq<Edit>)
    requires forall n :: n in Play(edits).nodes ==> AllInputsFed(Play(edits), n.id)
    ensures AllTyped(Play(edits)) && FeedAcyclic(Play(edits))
  {
    EveryHistoryValid(edits);
    WellTypedAcyclic(Play(edits));
  }

  predicate NamesLoads(edits: seq<Edit>) {
    forall edit :: edit in edits && edit.AddStep? && edit.node.process.LoadCollection? ==>
      "id" in edit.node.params && edit.node.params["id"].Str?
  }

  /** However deeply joins nest, every load reaching a typed step names the collection
      that following first inputs from the step finds. */
  lemma {:induction false} EveryHistoryOneCollection(edits: seq<Edit>)
    requires NamesLoads(edits)
    ensures LoadsNamed(Play(edits)) && OneCollection(Play(edits))
  {
    if edits == [] {
      EmptyValid();
    } else {
      var front := edits[..|edits| - 1];
      var before, last := Play(front), edits[|edits| - 1];
      assert last in edits && forall edit :: edit in front ==> edit in edits;
      EveryHistoryValid(front);
      EveryHistoryOneCollection(front);
      match last
      case AddStep(n) =>
        if NodeOf(before.nodes, n.id).None? && Known(n.process) { AddStepKeepsOneCollection(before, n); }
      case Connect(e) =>
        if EdgeVerdict(before, e) == Allowed { AllowedKeepsOneCollection(before, e); }
    }
  }

  // ----- Which objection is told -----

  predicate OffCanvas(dag: Dag, id: Id) {
    forall n :: n in dag.nodes ==> n.id != id
  }

  /** The card is at `to` or below it, every input of it is fed, and it has no type. */
  ghost predicate FedUntyped(dag: Dag, to: Id, n: Node) {
    Reach(dag.edges, to, n.id) && Typ(dag, n.id).None? &&
    forall port :: port in Inputs(ProcessAt(dag, n.id)) ==> IsFed(dag, n.id, port)
  }

  predicate IsFed(dag: Dag, id: Id, port: Port) {
    exists f :: f in dag.edges && f.to == PortRef(id, port)
  }

  /** The process of the card with the id; one without inputs, if there is no card. */
  function ProcessAt(dag: Dag, id: Id): Process {
    match NodeOf(dag.nodes, id)
    case None => LoadCollection
    case Some(n) => n.process
  }

  lemma BrokenMeans(dag: Dag, to: Id, n: Node)
    ensures Broken(dag, to, n) <==> FedUntyped(dag, to, n)
  {
    hide Typ, Reach;
    ReachRefl(dag.edges, to);
    forall port
      ensures Feeding(dag.edges, n.id, port).Some? <==> IsFed(dag, n.id, port)
    {
      if Feeding(dag.edges, n.id, port).Some? { FeedingIn(dag.edges, n.id, port); }
    }
    hide IsFed;
    assert AllInputsFed(dag, n.id) <==>
      forall port :: port in Inputs(ProcessAt(dag, n.id)) ==> Feeding(dag.edges, n.id, port).Some?;
  }

  /** The `i`-th card is the first such one. */
  ghost predicate BreaksFirst(dag: Dag, to: Id, id: Id, i: nat) {
    i < |dag.nodes| && dag.nodes[i].id == id && FedUntyped(dag, to, dag.nodes[i]) &&
    forall j :: 0 <= j < i ==> !FedUntyped(dag, to, dag.nodes[j])
  }

  /** The other input of the join at the edge's target is fed from another collection. */
  ghost predicate BranchesDiffer(dag: Dag, e: Edge) {
    var after := Dag(dag.nodes, dag.edges + [e]);
    var other := Feeding(dag.edges, e.to.node, if e.to.port == Cube1 then Cube2 else Cube1);
    ProcessAt(dag, e.to.node) == MergeCubes && other.Some? &&
    Collection(after, e.from.node).Some? && Collection(after, other.value.from.node).Some? &&
    Collection(after, e.from.node) != Collection(after, other.value.from.node)
  }

  lemma DiffersMeans(dag: Dag, e: Edge)
    ensures JoinDiffers(dag, e) <==> BranchesDiffer(dag, e)
  {
    hide Collection, Feeding;
    assert WithEdge(dag, e) == Dag(dag.nodes, dag.edges + [e]);
  }

  /** What each reason says of the edge. */
  ghost predicate Objects(dag: Dag, e: Edge, reason: Reason) {
    var from, to := NodeOf(dag.nodes, e.from.node), NodeOf(dag.nodes, e.to.node);
    var after := Dag(dag.nodes, dag.edges + [e]);
    match reason
    case NotOnCanvas => OffCanvas(dag, e.from.node) || OffCanvas(dag, e.to.node)
    case NoOutput => from.Some? && (e.from.port != Out || !HasOutput(from.value.process))
    case NoInput => to.Some? && e.to.port !in Inputs(to.value.process)
    case FeedsItself => e.from.node == e.to.node
    case AlreadyConnected => IsFed(dag, e.to.node, e.to.port)
    case WouldLoop => Reach(dag.edges, e.to.node, e.from.node)
    case NotComplete => Typ(after, e.from.node).None?
    case OtherCollection => BranchesDiffer(dag, e)
    case Mistyped(id) => exists i: nat :: BreaksFirst(after, e.to.node, id, i)
  }

  /** The order in which objections are looked for. */
  function Place(reason: Reason): nat {
    match reason
    case NotOnCanvas => 0
    case NoOutput => 1
    case NoInput => 2
    case FeedsItself => 3
    case AlreadyConnected => 4
    case WouldLoop => 5
    case NotComplete => 6
    case OtherCollection => 7
    case Mistyped(_) => 8
  }

  /** The reason holds, and none looked for before it does. */
  ghost predicate FirstObjection(dag: Dag, e: Edge, reason: Reason) {
    Objects(dag, e, reason) && forall other :: Place(other) < Place(reason) ==> !Objects(dag, e, other)
  }

  lemma {:induction false} FirstBrokenAt(dag: Dag, to: Id, i: nat, id: Id)
    requires i <= |dag.nodes| && forall j :: 0 <= j < i ==> !FedUntyped(dag, to, dag.nodes[j])
    ensures FirstBroken(dag, to, dag.nodes[i..]) == Some(id) <==> exists k: nat :: BreaksFirst(dag, to, id, k)
    decreases |dag.nodes| - i
  {
    hide Broken, FedUntyped;
    if i < |dag.nodes| {
      BrokenMeans(dag, to, dag.nodes[i]);
      assert dag.nodes[i..][0] == dag.nodes[i] && dag.nodes[i..][1..] == dag.nodes[i + 1..];
      if Broken(dag, to, dag.nodes[i]) {
        if dag.nodes[i].id == id { assert BreaksFirst(dag, to, id, i); }
      } else {
        FirstBrokenAt(dag, to, i + 1, id);
      }
    }
  }

  lemma BrokenTold(dag: Dag, e: Edge, id: Id)
    ensures FirstBroken(Dag(dag.nodes, dag.edges + [e]), e.to.node, dag.nodes) == Some(id) <==>
      Objects(dag, e, Mistyped(id))
  {
    hide FedUntyped, BreaksFirst, FirstBroken;
    var after := Dag(dag.nodes, dag.edges + [e]);
    FirstBrokenAt(after, e.to.node, 0, id);
    assert after.nodes[0..] == dag.nodes;
  }

  /** The objections in their order, from the graph before the edge. */
  lemma ObjectionsInOrder(dag: Dag, e: Edge)
    ensures EdgeVerdict(dag, e) ==
      if Objects(dag, e, NotOnCanvas) then Refused(NotOnCanvas)
      else if Objects(dag, e, NoOutput) then Refused(NoOutput)
      else if Objects(dag, e, NoInput) then Refused(NoInput)
      else if Objects(dag, e, FeedsItself) then Refused(FeedsItself)
      else if Objects(dag, e, AlreadyConnected) then Refused(AlreadyConnected)
      else if Objects(dag, e, WouldLoop) then Refused(WouldLoop)
      else if Objects(dag, e, NotComplete) then Refused(NotComplete)
      else if Objects(dag, e, OtherCollection) then Refused(OtherCollection)
      else
        match FirstBroken(Dag(dag.nodes, dag.edges + [e]), e.to.node, dag.nodes)
        case Some(id) => Refused(Mistyped(id))
        case None => Allowed
  {
    hide Typ, Reach, JoinDiffers, BranchesDiffer, FirstBroken, HasOutput, Inputs;
    DiffersMeans(dag, e);
    if Feeding(dag.edges, e.to.node, e.to.port).Some? { FeedingIn(dag.edges, e.to.node, e.to.port); }
    assert WithEdge(dag, e) == Dag(dag.nodes, dag.edges + [e]);
  }

  lemma AllowedUnopposed(dag: Dag, e: Edge, reason: Reason)
    requires EdgeVerdict(dag, e) == Allowed
    ensures !Objects(dag, e, reason)
  {
    ObjectionsInOrder(dag, e);
    hide EdgeVerdict, Objects, FirstBroken;
    match reason
    case Mistyped(id) => BrokenTold(dag, e, id);
    case _ =>
  }

  lemma ReasonHolds(dag: Dag, e: Edge, reason: Reason)
    requires EdgeVerdict(dag, e) == Refused(reason)
    ensures FirstObjection(dag, e, reason)
  {
    ObjectionsInOrder(dag, e);
    hide EdgeVerdict, Objects, FirstBroken;
    match reason
    case Mistyped(id) => BrokenTold(dag, e, id);
    case _ =>
  }

  lemma FirstUnique(dag: Dag, e: Edge, a: Reason, b: Reason)
    requires FirstObjection(dag, e, a) && FirstObjection(dag, e, b)
    ensures a == b
  {
    hide Objects, FirstBroken;
    assert Place(a) == Place(b);
    if a.Mistyped? {
      BrokenTold(dag, e, a.step);
      BrokenTold(dag, e, b.step);
    }
  }

  /** An edge is refused with the first reason that holds of it, and accepted exactly when none
      does. */
  lemma ReasonTold(dag: Dag, e: Edge, reason: Reason)
    ensures EdgeVerdict(dag, e) == Refused(reason) <==> FirstObjection(dag, e, reason)
    ensures EdgeVerdict(dag, e) == Allowed <==> forall other :: !Objects(dag, e, other)
  {
    hide Objects, EdgeVerdict, Place;
    match EdgeVerdict(dag, e)
    case Allowed =>
      forall other
        ensures !Objects(dag, e, other)
      {
        AllowedUnopposed(dag, e, other);
      }
    case Refused(told) =>
      ReasonHolds(dag, e, told);
      if FirstObjection(dag, e, reason) { FirstUnique(dag, e, told, reason); }
  }
}
