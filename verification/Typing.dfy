/** The graph's typing: what it means for a node to type, and the memoised typer that
    decides it on any graph, cyclic or not. */
module Typing {
  import opened Wrappers
  import opened Stages
  import opened Graph
  import opened Paths

  /** A node's process, and the node feeding each of its inputs in port order: all that
      a node's type reads of the graph around it. */
  datatype Wire = Wire(process: Process, sources: seq<Option<Id>>)

  function SourceOf(es: seq<Edge>, id: Id, port: Port): Option<Id> {
    match Feeding(es, id, port)
    case None => None
    case Some(e) => Some(e.from.node)
  }

  function SourcesOf(es: seq<Edge>, id: Id, ports: seq<Port>): seq<Option<Id>> {
    seq(|ports|, i requires 0 <= i < |ports| => SourceOf(es, id, ports[i]))
  }

  function Wiring(dag: Dag, id: Id): Option<Wire> {
    match NodeOf(dag.nodes, id)
    case None => None
    case Some(node) => Some(Wire(node.process, SourcesOf(dag.edges, id, Inputs(node.process))))
  }

  lemma JoinWiring(dag: Dag, id: Id)
    requires NodeOf(dag.nodes, id).Some? && NodeOf(dag.nodes, id).value.process.MergeCubes?
    ensures Wiring(dag, id)
         == Some(Wire(MergeCubes, [SourceOf(dag.edges, id, Cube1), SourceOf(dag.edges, id, Cube2)]))
  {
    assert SourcesOf(dag.edges, id, [Cube1, Cube2])
        == [SourceOf(dag.edges, id, Cube1), SourceOf(dag.edges, id, Cube2)];
  }

  lemma StepWiring(dag: Dag, id: Id, port: Port)
    requires NodeOf(dag.nodes, id).Some? && Inputs(NodeOf(dag.nodes, id).value.process) == [port]
    ensures Wiring(dag, id) == Some(Wire(NodeOf(dag.nodes, id).value.process, [SourceOf(dag.edges, id, port)]))
  {
    assert SourcesOf(dag.edges, id, [port]) == [SourceOf(dag.edges, id, port)];
  }

  /** `a` has an input fed by `b`. */
  predicate Needs(dag: Dag, a: Id, b: Id) {
    Wiring(dag, a).Some? && Some(b) in Wiring(dag, a).value.sources
  }

  // ----- The typing relation -----

  /** A finite typing derivation: a node's stage from those of the nodes feeding it. */
  datatype Derivation = Derivation(id: Id, stage: Stage, premises: seq<Derivation>)

  /** Every step of the derivation applies its node's rule to stages derived for the
      nodes feeding it, one per input port. */
  ghost predicate Derives(dag: Dag, d: Derivation) {
    Wiring(dag, d.id).Some? &&
    var w := Wiring(dag, d.id).value;
    |d.premises| == |w.sources| &&
    (forall i :: 0 <= i < |d.premises| ==> w.sources[i] == Some(d.premises[i].id) && Derives(dag, d.premises[i])) &&
    Apply(w.process, seq(|d.premises|, i requires 0 <= i < |d.premises| => Some(d.premises[i].stage))) == Some(d.stage)
  }

  /** The stage derivable for a node by a derivation of height at most `k`. */
  ghost function TypeIn(dag: Dag, k: nat, id: Id): Option<Stage>
    decreases k, 0
  {
    if k == 0 then None
    else
      match Wiring(dag, id)
      case None => None
      case Some(w) => Apply(w.process, StagesIn(dag, k - 1, w.sources))
  }

  ghost function StageIn(dag: Dag, k: nat, source: Option<Id>): Option<Stage>
    decreases k, 1
  {
    match source
    case None => None
    case Some(id) => TypeIn(dag, k, id)
  }

  ghost function StagesIn(dag: Dag, k: nat, sources: seq<Option<Id>>): seq<Option<Stage>>
    decreases k, 2
  {
    seq(|sources|, i requires 0 <= i < |sources| => StageIn(dag, k, sources[i]))
  }

  /** The type of a node: the stage derivable for it, `None` if there is none. */
  ghost function Typ(dag: Dag, id: Id): Option<Stage> {
    if k: nat :| TypeIn(dag, k, id).Some? then TypeIn(dag, k, id) else None
  }

  ghost function TypOf(dag: Dag, source: Option<Id>): Option<Stage> {
    match source
    case None => None
    case Some(id) => Typ(dag, id)
  }

  ghost function TypsOf(dag: Dag, sources: seq<Option<Id>>): seq<Option<Stage>> {
    seq(|sources|, i requires 0 <= i < |sources| => TypOf(dag, sources[i]))
  }

  lemma RankPositive(dag: Dag, k: nat, id: Id)
    requires TypeIn(dag, k, id).Some?
    ensures k > 0
  {
  }

  lemma {:induction false} TypeMono(dag: Dag, k: nat, l: nat, id: Id)
    requires k <= l && TypeIn(dag, k, id).Some?
    ensures TypeIn(dag, l, id) == TypeIn(dag, k, id)
    decreases k
  {
    hide Wiring, Typ;
    var w := Wiring(dag, id).value;
    var lo, hi := StagesIn(dag, k - 1, w.sources), StagesIn(dag, l - 1, w.sources);
    forall i | 0 <= i < |w.sources|
      ensures lo[i] == hi[i]
    {
      assert lo[i] in lo && lo[i] == StageIn(dag, k - 1, w.sources[i]);
      assert hi[i] == StageIn(dag, l - 1, w.sources[i]);
      TypeMono(dag, k - 1, l - 1, w.sources[i].value);
    }
    assert lo == hi;
  }

  lemma TypAt(dag: Dag, k: nat, id: Id)
    requires TypeIn(dag, k, id).Some?
    ensures Typ(dag, id) == TypeIn(dag, k, id)
  {
    var l: nat :| TypeIn(dag, l, id).Some? && Typ(dag, id) == TypeIn(dag, l, id);
    if k <= l {
      TypeMono(dag, k, l, id);
    } else {
      TypeMono(dag, l, k, id);
    }
  }

  /** A typed node has a rank: the height of its derivation. */
  lemma TypRank(dag: Dag, id: Id) returns (k: nat)
    requires Typ(dag, id).Some?
    ensures TypeIn(dag, k, id) == Typ(dag, id)
  {
    k :| TypeIn(dag, k, id).Some? && Typ(dag, id) == TypeIn(dag, k, id);
  }

  /** Finitely many typed sources are all derived within some height. */
  lemma {:induction false} CommonRank(dag: Dag, sources: seq<Option<Id>>) returns (k: nat)
    requires None !in TypsOf(dag, sources)
    ensures StagesIn(dag, k, sources) == TypsOf(dag, sources)
  {
    hide TypeIn, Typ, Wiring, Apply;
    if sources == [] {
      k := 0;
    } else {
      var rest := sources[1..];
      assert TypsOf(dag, sources)[0] in TypsOf(dag, sources);
      forall t | t in TypsOf(dag, rest)
        ensures t in TypsOf(dag, sources)
      {
        var i :| 0 <= i < |rest| && TypsOf(dag, rest)[i] == t;
        assert TypsOf(dag, sources)[i + 1] == t;
      }
      var k1 := CommonRank(dag, rest);
      var k0 := TypRank(dag, sources[0].value);
      k := if k0 <= k1 then k1 else k0;
      TypeMono(dag, k0, k, sources[0].value);
      forall i | 0 <= i < |sources|
        ensures StageIn(dag, k, sources[i]) == TypOf(dag, sources[i])
      {
        if i > 0 {
          assert rest[i - 1] == sources[i];
          assert StagesIn(dag, k1, rest)[i - 1] == StageIn(dag, k1, sources[i]);
          assert TypsOf(dag, rest)[i - 1] in TypsOf(dag, rest);
          TypeMono(dag, k1, k, sources[i].value);
        }
      }
    }
  }

  lemma RankedInputs(dag: Dag, k: nat, sources: seq<Option<Id>>)
    requires None !in StagesIn(dag, k, sources)
    ensures StagesIn(dag, k, sources) == TypsOf(dag, sources)
  {
    forall i | 0 <= i < |sources|
      ensures StageIn(dag, k, sources[i]) == TypOf(dag, sources[i])
    {
      assert StagesIn(dag, k, sources)[i] in StagesIn(dag, k, sources);
      TypAt(dag, k, sources[i].value);
    }
  }

  /** The typing is a fixed point of the rules: a node's type is its rule applied to
      the types of the nodes feeding it. */
  lemma TypRule(dag: Dag, id: Id)
    ensures Typ(dag, id)
         == match Wiring(dag, id) case None => None case Some(w) => Apply(w.process, TypsOf(dag, w.sources))
  {
    hide Wiring;
    if Wiring(dag, id).Some? {
      var w := Wiring(dag, id).value;
      if Typ(dag, id).Some? {
        var k := TypRank(dag, id);
        RankedInputs(dag, k - 1, w.sources);
      } else if Apply(w.process, TypsOf(dag, w.sources)).Some? {
        var k := CommonRank(dag, w.sources);
        TypAt(dag, k + 1, id);
      }
    } else {
      assert forall k: nat :: TypeIn(dag, k, id).None?;
    }
  }

  /** A derivation's stage is the node's type, and the type has a derivation. */
  lemma TypIsDerivable(dag: Dag, id: Id, s: Stage)
    ensures Typ(dag, id) == Some(s) <==> exists d :: Derives(dag, d) && d.id == id && d.stage == s
  {
    if Typ(dag, id) == Some(s) {
      var k := TypRank(dag, id);
      var d := DerivationOf(dag, k, id);
    }
    forall d | Derives(dag, d)
      ensures Typ(dag, d.id) == Some(d.stage)
    {
      DerivationTypes(dag, d);
    }
  }

  lemma {:induction false} DerivationOf(dag: Dag, k: nat, id: Id) returns (d: Derivation)
    requires TypeIn(dag, k, id).Some?
    ensures Derives(dag, d) && d.id == id && Some(d.stage) == TypeIn(dag, k, id)
    decreases k, 0
  {
    hide Typ, Wiring;
    var w := Wiring(dag, id).value;
    var stages := StagesIn(dag, k - 1, w.sources);
    var premises := PremisesOf(dag, k - 1, w.sources);
    d := Derivation(id, TypeIn(dag, k, id).value, premises);
    assert seq(|premises|, i requires 0 <= i < |premises| => Some(premises[i].stage)) == stages;
  }

  lemma {:induction false} PremisesOf(dag: Dag, k: nat, sources: seq<Option<Id>>) returns (ds: seq<Derivation>)
    requires None !in StagesIn(dag, k, sources)
    ensures |ds| == |sources|
    ensures forall i :: 0 <= i < |ds| ==> sources[i] == Some(ds[i].id) && Derives(dag, ds[i])
    ensures forall i :: 0 <= i < |ds| ==> StagesIn(dag, k, sources)[i] == Some(ds[i].stage)
    decreases k, |sources|
  {
    hide TypeIn, Derives, Wiring, Apply;
    ds := [];
    if sources != [] {
      var last := |sources| - 1;
      var stages := StagesIn(dag, k, sources);
      assert StagesIn(dag, k, sources[..last]) == stages[..last];
      assert stages[last] in stages && stages[last] == StageIn(dag, k, sources[last]);
      var front := PremisesOf(dag, k, sources[..last]);
      var d := DerivationOf(dag, k, sources[last].value);
      ds := front + [d];
    }
  }

  lemma {:induction false} DerivationTypes(dag: Dag, d: Derivation)
    requires Derives(dag, d)
    ensures Typ(dag, d.id) == Some(d.stage)
  {
    var w := Wiring(dag, d.id).value;
    forall i | 0 <= i < |d.premises|
      ensures TypOf(dag, w.sources[i]) == Some(d.premises[i].stage)
    {
      DerivationTypes(dag, d.premises[i]);
    }
    assert TypsOf(dag, w.sources) == seq(|d.premises|, i requires 0 <= i < |d.premises| => Some(d.premises[i].stage));
    TypRule(dag, d.id);
  }

  // ----- Cycles never type -----

  ghost predicate NeedsPath(dag: Dag, p: seq<Id>) {
    |p| > 0 && forall i :: 0 <= i < |p| - 1 ==> Needs(dag, p[i], p[i + 1])
  }

  /** The feed relation has no cycle. */
  ghost predicate FeedAcyclic(dag: Dag) {
    forall p :: NeedsPath(dag, p) && |p| > 1 ==> p[0] != p[|p| - 1]
  }

  lemma NeedsTyped(dag: Dag, k: nat, a: Id, b: Id)
    requires TypeIn(dag, k, a).Some? && Needs(dag, a, b)
    ensures k > 0 && TypeIn(dag, k - 1, b).Some?
  {
    var sources := Wiring(dag, a).value.sources;
    var i :| 0 <= i < |sources| && sources[i] == Some(b);
    assert StagesIn(dag, k - 1, sources)[i] in StagesIn(dag, k - 1, sources);
  }

  lemma {:induction false} NeedsPathTyped(dag: Dag, k: nat, p: seq<Id>)
    requires NeedsPath(dag, p) && TypeIn(dag, k, p[0]).Some?
    ensures k >= |p| && TypeIn(dag, k - (|p| - 1), p[|p| - 1]).Some?
    decreases |p|
  {
    if |p| > 1 {
      NeedsTyped(dag, k, p[0], p[1]);
      NeedsPathTyped(dag, k - 1, p[1..]);
    }
  }

  lemma {:induction false} CycleUnranked(dag: Dag, k: nat, p: seq<Id>)
    requires NeedsPath(dag, p) && |p| > 1 && p[0] == p[|p| - 1]
    ensures TypeIn(dag, k, p[0]).None?
    decreases k
  {
    if TypeIn(dag, k, p[0]).Some? {
      NeedsPathTyped(dag, k, p);
      CycleUnranked(dag, k - (|p| - 1), p);
    }
  }

  /** A node on a feed cycle has no type: answering `null` for a node being visited is
      the right answer, not an approximation. */
  lemma CycleUntyped(dag: Dag, p: seq<Id>)
    requires NeedsPath(dag, p) && |p| > 1 && p[0] == p[|p| - 1]
    ensures Typ(dag, p[0]).None?
  {
    forall k: nat
      ensures TypeIn(dag, k, p[0]).None?
    {
      CycleUnranked(dag, k, p);
    }
  }

  // ----- The memoised typer -----

  function Ids(dag: Dag): set<Id> {
    set n | n in dag.nodes :: n.id
  }

  /** A node that waits on its own visit is on a feed cycle. */
  lemma RevisitUntyped(dag: Dag, path: seq<Id>, id: Id)
    requires NeedsPath(dag, path + [id]) && id in path
    ensures Typ(dag, id).None?
  {
    var i :| 0 <= i < |path| && path[i] == id;
    CycleUntyped(dag, (path + [id])[i..]);
  }

  lemma UnknownUntyped(dag: Dag, id: Id)
    requires NodeOf(dag.nodes, id).None? || !Known(NodeOf(dag.nodes, id).value.process)
    ensures Typ(dag, id).None?
  {
    TypRule(dag, id);
  }

  lemma TypOfNode(dag: Dag, id: Id)
    requires NodeOf(dag.nodes, id).Some?
    ensures var p := NodeOf(dag.nodes, id).value.process;
            Typ(dag, id) == Apply(p, TypsOf(dag, SourcesOf(dag.edges, id, Inputs(p))))
  {
    TypRule(dag, id);
  }

  /** The `i`-th input of an open visit: where it is fed from is waited on next. */
  lemma VisitInput(dag: Dag, path: seq<Id>, id: Id, i: nat)
    requires NeedsPath(dag, path + [id]) && NodeOf(dag.nodes, id).Some?
    requires i < |Inputs(NodeOf(dag.nodes, id).value.process)|
    ensures var ports := Inputs(NodeOf(dag.nodes, id).value.process);
            var edge := Feeding(dag.edges, id, ports[i]);
            SourcesOf(dag.edges, id, ports)[i] == (if edge.None? then None else Some(edge.value.from.node)) &&
            (edge.Some? ==> NeedsPath(dag, path + [id] + [edge.value.from.node]))
  {
    var ports := Inputs(NodeOf(dag.nodes, id).value.process);
    var edge := Feeding(dag.edges, id, ports[i]);
    if edge.Some? {
      assert Wiring(dag, id).value.sources[i] == Some(edge.value.from.node);
      assert Needs(dag, id, edge.value.from.node);
    }
  }

  class Typer {
    const dag: Dag
    var memo: map<Id, Option<Stage>>
    var visiting: set<Id>

    /** Every remembered answer is the node's type. */
    ghost predicate Valid()
      reads this
    {
      forall id :: id in memo ==> memo[id] == Typ(dag, id)
    }

    constructor (dag: Dag)
      ensures this.dag == dag && memo == map[] && Valid() && visiting == {}
    {
      this.dag := dag;
      memo := map[];
      visiting := {};
    }

    /** The answer to a query, in any order of queries: the node's type. */
    method TypeOf(id: Id) returns (stage: Option<Stage>)
      requires Valid() && visiting == {}
      modifies this
      ensures Valid() && visiting == {}
      ensures stage == Typ(dag, id)
    {
      stage := Visit(id, []);
    }

    /** The recursive visit. `path` is the chain of open visits, each waiting for the
        next; its nodes are `visiting`. */
    method Visit(id: Id, ghost path: seq<Id>) returns (stage: Option<Stage>)
      requires Valid() && NeedsPath(dag, path + [id])
      requires visiting == set x | x in path
      modifies this
      ensures Valid() && visiting == old(visiting)
      ensures stage == Typ(dag, id)
      decreases |Ids(dag) - visiting|, 0
    {
      hide Typ, Apply, Wiring, NeedsPath, Needs;
      if id in memo {
        return memo[id];
      }
      if id in visiting {
        RevisitUntyped(dag, path, id);
        return None;
      }
      var node := NodeOf(dag.nodes, id);
      if node.None? || !Known(node.value.process) {
        UnknownUntyped(dag, id);
        memo := memo[id := None];
        return None;
      }
      ghost var open := visiting;
      visiting := visiting + {id};
      SubsetSmaller(Ids(dag) - visiting, Ids(dag) - open);
      var inputs := VisitInputs(id, Inputs(node.value.process), path);
      visiting := visiting - {id};
      TypOfNode(dag, id);
      stage := Apply(node.value.process, inputs);
      memo := memo[id := stage];
    }

    /** The types of an open visit's inputs, in port order; an unfed port has none. */
    method VisitInputs(id: Id, ports: seq<Port>, ghost path: seq<Id>) returns (inputs: seq<Option<Stage>>)
      requires Valid() && NeedsPath(dag, path + [id])
      requires NodeOf(dag.nodes, id).Some? && ports == Inputs(NodeOf(dag.nodes, id).value.process)
      requires visiting == set x | x in path + [id]
      modifies this
      ensures Valid() && visiting == old(visiting)
      ensures inputs == TypsOf(dag, SourcesOf(dag.edges, id, ports))
      decreases |Ids(dag) - visiting|, 1
    {
      hide Typ, Apply, Wiring, NeedsPath, Needs, Ids;
      ghost var sources := SourcesOf(dag.edges, id, ports);
      inputs := [];
      for i := 0 to |ports|
        invariant Valid() && visiting == old(visiting)
        invariant |inputs| == i && forall j :: 0 <= j < i ==> inputs[j] == TypOf(dag, sources[j])
      {
        var edge := Feeding(dag.edges, id, ports[i]);
        var input: Option<Stage> := None;
        VisitInput(dag, path, id, i);
        if edge.Some? {
          input := Visit(edge.value.from.node, path + [id]);
        }
        inputs := inputs + [input];
      }
    }
  }

  ghost predicate AllTyped(dag: Dag) {
    forall n :: n in dag.nodes ==> Typ(dag, n.id).Some?
  }

  /** Whether every node types. */
  method WellTyped(dag: Dag) returns (r: bool)
    ensures r <==> AllTyped(dag)
  {
    var typer := new Typer(dag);
    for i := 0 to |dag.nodes|
      invariant typer.Valid() && typer.visiting == {} && typer.dag == dag
      invariant forall j :: 0 <= j < i ==> Typ(dag, dag.nodes[j].id).Some?
    {
      var stage := typer.TypeOf(dag.nodes[i].id);
      if stage.None? {
        return false;
      }
    }
    return true;
  }

  /** A graph that types has no feed cycle. */
  lemma WellTypedAcyclic(dag: Dag)
    requires AllTyped(dag)
    ensures FeedAcyclic(dag)
  {
    forall p | NeedsPath(dag, p) && |p| > 1
      ensures p[0] != p[|p| - 1]
    {
      assert Needs(dag, p[0], p[1]);
      var n := NodeOf(dag.nodes, p[0]).value;
      NodeOfIn(dag.nodes, p[0]);
      assert n in dag.nodes && Typ(dag, n.id).Some?;
      if p[0] == p[|p| - 1] {
        CycleUntyped(dag, p);
      }
    }
  }

  /** A closed walk along edges, read backwards, is a feed cycle. */
  lemma WalkNeeds(dag: Dag, q: seq<Id>) returns (p: seq<Id>)
    requires WellFormed(dag) && IsPath(dag.edges, q)
    ensures NeedsPath(dag, p) && |p| == |q| && p[0] == q[|q| - 1] && p[|p| - 1] == q[0]
  {
    hide WellFormed, Needs, Linked;
    p := seq(|q|, i requires 0 <= i < |q| => q[|q| - 1 - i]);
    forall i | 0 <= i < |p| - 1
      ensures Needs(dag, p[i], p[i + 1])
    {
      assert Linked(dag.edges, q[|q| - 2 - i], q[|q| - 2 - i + 1]);
      LinkedNeeds(dag, p[i], p[i + 1]);
    }
  }

  /** A typed step is on no cycle of edges: nothing it feeds leads back to it. */
  lemma TypedOffCycle(dag: Dag, e: Edge)
    requires WellFormed(dag) && e in dag.edges && Typ(dag, e.from.node).Some?
    ensures !Reach(dag.edges, e.to.node, e.from.node)
  {
    hide WellFormed, NeedsPath, IsPath, Typ, Reach;
    if Reach(dag.edges, e.to.node, e.from.node) {
      var q := ClosingWalk(dag.edges, e);
      var p := WalkNeeds(dag, q);
      CycleUntyped(dag, p);
    }
  }

  /** What feeds a typed step is typed, and the step does not lead back to it. */
  lemma FeederTyped(dag: Dag, a: Id, b: Id)
    requires WellFormed(dag) && Linked(dag.edges, a, b) && Typ(dag, b).Some?
    ensures Typ(dag, a).Some? && !Reach(dag.edges, b, a)
  {
    LinkedNeeds(dag, b, a);
    hide WellFormed, Typ, Reach, Needs;
    var k := TypRank(dag, b);
    NeedsTyped(dag, k, b, a);
    TypAt(dag, k - 1, a);
    var e :| e in dag.edges && e.from.node == a && e.to.node == b;
    TypedOffCycle(dag, e);
  }

  /** A graph that types has no cycle of edges. */
  lemma TypedAcyclic(dag: Dag)
    requires WellFormed(dag) && AllTyped(dag)
    ensures Acyclic(dag.edges)
  {
    hide Typ, Reach;
    forall e | e in dag.edges
      ensures !Reach(dag.edges, e.to.node, e.from.node)
    {
      assert EdgeFits(dag.nodes, e);
      NodeOfIn(dag.nodes, e.from.node);
      TypedOffCycle(dag, e);
    }
  }

  // ----- What a type depends on -----

  predicate Differs(x: Id, y: Id) {
    x != y
  }

  /** Every id but one. */
  ghost function Others(id: Id): (s: iset<Id>)
    ensures forall x :: x in s <==> x != id
  {
    iset x | Differs(x, id)
  }

  /** Types agree on a set of nodes that is wired alike in both graphs and closed
      under sources. */
  lemma {:induction false} Congruence(dag: Dag, dag': Dag, s: iset<Id>, k: nat, id: Id)
    requires id in s
    requires forall x :: x in s ==> Wiring(dag', x) == Wiring(dag, x)
    requires forall x, y :: x in s && Needs(dag, x, y) ==> y in s
    ensures TypeIn(dag', k, id) == TypeIn(dag, k, id)
    decreases k
  {
    hide Wiring, Apply, Typ;
    if k > 0 && Wiring(dag, id).Some? {
      var sources := Wiring(dag, id).value.sources;
      forall i | 0 <= i < |sources|
        ensures StageIn(dag', k - 1, sources[i]) == StageIn(dag, k - 1, sources[i])
      {
        if sources[i].Some? {
          assert Needs(dag, id, sources[i].value);
          Congruence(dag, dag', s, k - 1, sources[i].value);
        }
      }
      assert StagesIn(dag', k - 1, sources) == StagesIn(dag, k - 1, sources);
    }
  }

  lemma SameSources(dag: Dag, dag': Dag, id: Id)
    requires match NodeOf(dag.nodes, id)
             case None => NodeOf(dag'.nodes, id).None?
             case Some(n) => NodeOf(dag'.nodes, id).Some? && NodeOf(dag'.nodes, id).value.process == n.process &&
                             forall port :: port in Inputs(n.process) ==>
                               SourceOf(dag'.edges, id, port) == SourceOf(dag.edges, id, port)
    ensures Wiring(dag', id) == Wiring(dag, id)
  {
    if NodeOf(dag.nodes, id).Some? {
      var ports := Inputs(NodeOf(dag.nodes, id).value.process);
      assert SourcesOf(dag'.edges, id, ports) == SourcesOf(dag.edges, id, ports);
    }
  }

  lemma SameTyp(dag: Dag, dag': Dag, id: Id)
    requires forall k: nat :: TypeIn(dag', k, id) == TypeIn(dag, k, id)
    ensures Typ(dag', id) == Typ(dag, id)
  {
    if Typ(dag, id).Some? {
      var k := TypRank(dag, id);
      TypAt(dag', k, id);
    } else if Typ(dag', id).Some? {
      var k := TypRank(dag', id);
      TypAt(dag, k, id);
    }
  }

  lemma TypCongruence(dag: Dag, dag': Dag, s: iset<Id>, id: Id)
    requires id in s
    requires forall x :: x in s ==> Wiring(dag', x) == Wiring(dag, x)
    requires forall x, y :: x in s && Needs(dag, x, y) ==> y in s
    ensures Typ(dag', id) == Typ(dag, id)
  {
    forall k: nat
      ensures TypeIn(dag', k, id) == TypeIn(dag, k, id)
    {
      Congruence(dag, dag', s, k, id);
    }
    SameTyp(dag, dag', id);
  }

  lemma NeedsLinked(dag: Dag, a: Id, b: Id)
    requires Needs(dag, a, b)
    ensures Linked(dag.edges, b, a)
  {
    var w := Wiring(dag, a).value;
    var i :| 0 <= i < |w.sources| && w.sources[i] == Some(b);
    var port := Inputs(w.process)[i];
    FeedingIn(dag.edges, a, port);
  }

  /** On well-formed wiring the edges are the feeds. */
  lemma LinkedNeeds(dag: Dag, a: Id, b: Id)
    requires WellFormed(dag)
    ensures Linked(dag.edges, b, a) <==> Needs(dag, a, b)
  {
    if Needs(dag, a, b) {
      NeedsLinked(dag, a, b);
    }
    forall e | e in dag.edges && e.from.node == b && e.to.node == a
      ensures Needs(dag, a, b)
    {
      FeedingUnique(dag.edges, e);
      var ports := Inputs(NodeOf(dag.nodes, a).value.process);
      var i :| 0 <= i < |ports| && ports[i] == e.to.port;
      assert Wiring(dag, a).value.sources[i] == Some(b);
    }
  }

  /** The frame of an edge: only what it leads to can change type. */
  lemma EdgeFrame(dag: Dag, e: Edge, id: Id)
    requires !Reach(dag.edges, e.to.node, id)
    ensures Typ(dag.(edges := dag.edges + [e]), id) == Typ(dag, id)
  {
    var dag' := dag.(edges := dag.edges + [e]);
    var s := iset x | !Reach(dag.edges, e.to.node, x);
    forall x | x in s
      ensures Wiring(dag', x) == Wiring(dag, x)
    {
      ReachRefl(dag.edges, x);
      forall port
        ensures SourceOf(dag.edges + [e], x, port) == SourceOf(dag.edges, x, port)
      {
        FeedingSnoc(dag.edges, e, x, port);
      }
      SameSources(dag, dag', x);
    }
    forall x, y | x in s && Needs(dag, x, y)
      ensures y in s
    {
      NeedsLinked(dag, x, y);
      ReachLink(dag.edges, y, x);
      if Reach(dag.edges, e.to.node, y) {
        ReachTrans(dag.edges, e.to.node, y, x);
      }
    }
    TypCongruence(dag, dag', s, id);
  }
}
