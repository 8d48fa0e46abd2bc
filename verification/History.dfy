/** Runs of the panel's edits whatever they do to types: what keeps the wiring well-formed
    and the graph acyclic. */
module History {
  import opened Graph
  import opened Paths
  import opened Edits
  import opened Branching
  import opened Removal
  import opened Joining
  import Menu
  import Panel

  /** A step inserted on an edge, a branch started into a free port, two steps joined, or a
      card removed. */
  datatype Change =
    | Insert(on: Edge, card: Node)
    | Branch(load: Node, ndvi: Node, id: Id, port: Port)
    | Join(first: Id, second: Id, card: Node)
    | Remove(id: Id)

  ghost predicate Changed(dag: Dag, change: Change, dag': Dag) {
    match change
    case Insert(e, card) => Menu.InsertedOn(dag, dag', e, card)
    case Branch(load, ndvi, id, port) => Menu.BranchedInto(dag, dag', load, ndvi, id, port)
    case Join(a, b, card) => Joined(dag, dag', a, b, card)
    case Remove(id) => TakenOut(dag, dag', id)
  }

  /** A join whose first step leads to its second. */
  ghost predicate Loops(dag: Dag, change: Change) {
    change.Join? && Reach(dag.edges, change.first, change.second)
  }

  /** The removal of a card whose one input and one output are the same edge. */
  predicate DropsSelfFed(dag: Dag, change: Change) {
    change.Remove? && SelfFed(dag.edges, change.id)
  }

  ghost predicate Wired(dag: Dag) {
    WellFormed(dag) && LeaveByOut(dag.edges)
  }

  predicate LeaveByOut(es: seq<Edge>) {
    forall e :: e in es ==> e.from.port == Out
  }

  // ----- One edit -----

  /** An edit keeps the wiring well-formed exactly when it does not remove a card that feeds
      itself alone. */
  lemma ChangeKeepsWired(dag: Dag, change: Change, dag': Dag)
    requires Wired(dag) && Changed(dag, change, dag')
    ensures Wired(dag') <==> !DropsSelfFed(dag, change)
  {
    hide WellFormed, LeaveByOut, AddsCard, DropsCard, AddsBranch, NodeOf, SelfFed, Feeding;
    hide InsertEdges, JoinEdges, RemoveEdges, BranchEdges;
    match change
    case Insert(e, card) =>
      InsertKeepsWellFormed(dag, dag', e, card);
      InsertLeaves(dag.edges, e, card.id, Inputs(card.process)[0]);
    case Branch(load, ndvi, id, port) =>
      BranchKeepsWellFormed(dag, dag', load, ndvi, id, port);
      BranchLeaves(dag.edges, load.id, ndvi.id, id, port);
    case Join(a, b, card) =>
      JoinKeepsWellFormed(dag, dag', a, b, card);
      JoinLeaves(dag.edges, a, b, card.id);
    case Remove(id) =>
      RemoveKeepsWellFormed(dag, dag', id);
      RemoveLeaves(dag.edges, id);
  }

  lemma InsertLeaves(es: seq<Edge>, e: Edge, id: Id, port: Port)
    requires LeaveByOut(es) && e in es
    ensures LeaveByOut(InsertEdges(es, e, id, port))
  {
    InsertMembers(es, e, id, port);
  }

  lemma BranchLeaves(es: seq<Edge>, load: Id, ndvi: Id, id: Id, port: Port)
    requires LeaveByOut(es)
    ensures LeaveByOut(BranchEdges(es, load, ndvi, id, port))
  {
    BranchMembers(es, load, ndvi, id, port);
  }

  lemma JoinLeaves(es: seq<Edge>, a: Id, b: Id, id: Id)
    requires LeaveByOut(es)
    ensures LeaveByOut(JoinEdges(es, a, b, id, Cube1, Cube2))
  {
    JoinMembers(es, a, b, id, Cube1, Cube2);
  }

  lemma RemoveLeaves(es: seq<Edge>, id: Id)
    requires LeaveByOut(es)
    ensures LeaveByOut(RemoveEdges(es, id))
  {
    Panel.BridgePorts(es, id);
  }

  /** An edit keeps an acyclic graph acyclic exactly when it is not a join whose first step
      leads to its second. */
  lemma ChangeKeepsAcyclic(dag: Dag, change: Change, dag': Dag)
    requires Wired(dag) && Acyclic(dag.edges) && Changed(dag, change, dag')
    ensures Acyclic(dag'.edges) <==> !Loops(dag, change)
  {
    hide WellFormed, LeaveByOut, DropsCard, NodeOf, Feeding, Acyclic, Reach;
    hide InsertEdges, JoinEdges, RemoveEdges, BranchEdges, EdgeFits;
    WiredParts(dag);
    match change
    case Insert(e, card) =>
      FreshUnwired(dag, card.id);
      InsertKeepsAcyclic(dag.edges, e, card.id, Inputs(card.process)[0]);
    case Branch(load, ndvi, id, port) =>
      Menu.BranchedGraph(dag, dag', load, ndvi, id, port);
      BranchKeepsAcyclic(dag.edges, load.id, ndvi.id, id, port);
    case Join(a, b, card) =>
      JoinedGraph(dag, dag', a, b, card);
      JoinAcyclic(dag.edges, a, b, card.id, Cube1, Cube2);
    case Remove(id) =>
      Panel.RemovedAcyclic(dag.edges, id);
  }

  lemma WiredParts(dag: Dag)
    requires Wired(dag)
    ensures SingleFed(dag.edges) && (forall e :: e in dag.edges ==> EdgeFits(dag.nodes, e))
    ensures forall e :: e in dag.edges ==> e.from.port == Out
  {
  }

  lemma AcyclicNotSelfFed(dag: Dag, change: Change)
    requires Acyclic(dag.edges)
    ensures !DropsSelfFed(dag, change)
  {
    if change.Remove? {
      Panel.NotSelfFed(dag.edges, change.id);
    }
  }

  // ----- Every run -----

  /** Each graph is the one before, changed. */
  ghost predicate IsHistory(dags: seq<Dag>, changes: seq<Change>) {
    |dags| == |changes| + 1 && forall i :: 0 <= i < |changes| ==> ChangedAt(dags, changes, i)
  }

  ghost predicate ChangedAt(dags: seq<Dag>, changes: seq<Change>, i: nat)
    requires i + 1 < |dags| && i < |changes|
  {
    Changed(dags[i], changes[i], dags[i + 1])
  }

  lemma {:induction false} WiredSoFar(dags: seq<Dag>, changes: seq<Change>, n: nat)
    requires IsHistory(dags, changes) && Wired(dags[0]) && n < |dags|
    requires forall i :: 0 <= i < n ==> !DropsSelfFed(dags[i], changes[i])
    ensures Wired(dags[n])
  {
    hide Wired, DropsSelfFed, Changed;
    if n > 0 {
      WiredSoFar(dags, changes, n - 1);
      assert ChangedAt(dags, changes, n - 1);
      ChangeKeepsWired(dags[n - 1], changes[n - 1], dags[n - 1 + 1]);
    }
  }

  /** Over every run from a well-formed graph, the wiring is well-formed throughout exactly
      when no edit removes a card that feeds itself alone. */
  lemma EveryHistoryWired(dags: seq<Dag>, changes: seq<Change>)
    requires IsHistory(dags, changes) && Wired(dags[0])
    ensures (forall i :: 0 <= i < |dags| ==> Wired(dags[i])) <==>
      (forall i :: 0 <= i < |changes| ==> !DropsSelfFed(dags[i], changes[i]))
  {
    hide Wired, DropsSelfFed, Changed;
    if forall i :: 0 <= i < |changes| ==> !DropsSelfFed(dags[i], changes[i]) {
      forall i | 0 <= i < |dags|
        ensures Wired(dags[i])
      {
        WiredSoFar(dags, changes, i);
      }
    }
    if forall i :: 0 <= i < |dags| ==> Wired(dags[i]) {
      forall i | 0 <= i < |changes|
        ensures !DropsSelfFed(dags[i], changes[i])
      {
        assert ChangedAt(dags, changes, i);
        ChangeKeepsWired(dags[i], changes[i], dags[i + 1]);
      }
    }
  }

  lemma {:induction false} AcyclicSoFar(dags: seq<Dag>, changes: seq<Change>, n: nat)
    requires IsHistory(dags, changes) && Wired(dags[0]) && Acyclic(dags[0].edges) && n < |dags|
    requires forall i :: 0 <= i < n ==> !Loops(dags[i], changes[i])
    ensures Wired(dags[n]) && Acyclic(dags[n].edges)
  {
    hide Wired, Loops, Changed, Acyclic, DropsSelfFed;
    if n > 0 {
      AcyclicSoFar(dags, changes, n - 1);
      assert ChangedAt(dags, changes, n - 1);
      AcyclicNotSelfFed(dags[n - 1], changes[n - 1]);
      ChangeKeepsWired(dags[n - 1], changes[n - 1], dags[n - 1 + 1]);
      ChangeKeepsAcyclic(dags[n - 1], changes[n - 1], dags[n - 1 + 1]);
    }
  }

  lemma {:induction false} OpenSoFar(dags: seq<Dag>, changes: seq<Change>, n: nat)
    requires IsHistory(dags, changes) && Wired(dags[0]) && n < |dags|
    requires forall i :: 0 <= i < |dags| ==> Acyclic(dags[i].edges)
    ensures forall i :: 0 <= i < n ==> !Loops(dags[i], changes[i])
  {
    hide Wired, Loops, Changed, Acyclic;
    if n > 0 {
      OpenSoFar(dags, changes, n - 1);
      AcyclicSoFar(dags, changes, n - 1);
      assert ChangedAt(dags, changes, n - 1);
      ChangeKeepsAcyclic(dags[n - 1], changes[n - 1], dags[n - 1 + 1]);
      assert Acyclic(dags[n - 1 + 1].edges);
    }
  }

  /** Over every run from a well-formed acyclic graph, the graph is acyclic throughout exactly
      when no edit joins a step to one it leads to; and the wiring is well-formed then. */
  lemma EveryHistoryAcyclic(dags: seq<Dag>, changes: seq<Change>)
    requires IsHistory(dags, changes) && Wired(dags[0]) && Acyclic(dags[0].edges)
    ensures (forall i :: 0 <= i < |dags| ==> Acyclic(dags[i].edges)) <==>
      (forall i :: 0 <= i < |changes| ==> !Loops(dags[i], changes[i]))
    ensures (forall i :: 0 <= i < |dags| ==> Acyclic(dags[i].edges)) ==>
      forall i :: 0 <= i < |dags| ==> Wired(dags[i])
  {
    hide Wired, Loops, Changed, Acyclic;
    if forall i :: 0 <= i < |dags| ==> Acyclic(dags[i].edges) {
      OpenSoFar(dags, changes, |changes|);
    }
    if forall i :: 0 <= i < |changes| ==> !Loops(dags[i], changes[i]) {
      forall i | 0 <= i < |dags|
        ensures Wired(dags[i]) && Acyclic(dags[i].edges)
      {
        AcyclicSoFar(dags, changes, i);
      }
    }
  }
}
