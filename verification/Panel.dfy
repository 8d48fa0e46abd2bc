/** The authoring panel's canvas state and the edits that change it. */
module Panel {
  import opened Wrappers
  import opened Stages
  import opened Graph
  import opened Paths
  import opened Typing
  import opened Output
  import opened Edits
  import opened Branching
  import opened Decimals

  // ----- Step ids -----

  function StepId(n: nat): Id {
    ['s'] + Decimal(n)
  }

  lemma StepIdText(n: nat)
    ensures StepId(n) == "s" + Decimal(n)
  {
    assert "s" == ['s'];
  }

  lemma FirstIds()
    ensures StepId(1) == "s1" && StepId(2) == "s2" && StepId(1) != StepId(2)
  {
    assert Decimal(1) == "1" && Decimal(2) == "2";
    assert "s1"[1] != "s2"[1];
  }

  lemma StepIdInjective(m: nat, n: nat)
    requires StepId(m) == StepId(n)
    ensures m == n
  {
    assert StepId(m)[1..] == Decimal(m) && StepId(n)[1..] == Decimal(n);
    DecimalInjective(m, n);
  }

  // ----- Node lists -----

  lemma AddsCardByMembers(nodes: seq<Node>, nodes': seq<Node>, card: Node)
    requires UniqueIds(nodes) && UniqueIds(nodes') && NodeOf(nodes, card.id).None?
    requires forall n :: n in nodes' <==> n in nodes || n == card
    ensures NodeOf(nodes', card.id) == Some(card)
    ensures forall x :: x != card.id ==> NodeOf(nodes', x) == NodeOf(nodes, x)
  {
    hide UniqueIds;
    NodeOfUnique(nodes', card);
    forall x | x != card.id
      ensures NodeOf(nodes', x) == NodeOf(nodes, x)
    {
      if NodeOf(nodes, x).Some? {
        NodeOfIn(nodes, x);
        NodeOfUnique(nodes', NodeOf(nodes, x).value);
      } else if NodeOf(nodes', x).Some? {
        NodeOfIn(nodes', x);
      }
    }
  }

  lemma {:induction false} OutputNodeInsert(xs: seq<Node>, card: Node, ys: seq<Node>)
    requires !card.process.SaveResult?
    ensures OutputNode(xs + [card] + ys) == OutputNode(xs + ys)
  {
    if xs == [] {
      assert xs + [card] + ys == [card] + ys && xs + ys == ys;
    } else {
      assert (xs + [card] + ys)[1..] == xs[1..] + [card] + ys && (xs + ys)[1..] == xs[1..] + ys;
      OutputNodeInsert(xs[1..], card, ys);
    }
  }

  lemma InsertCard(xs: seq<Node>, card: Node, ys: seq<Node>)
    requires UniqueIds(xs + ys) && NodeOf(xs + ys, card.id).None?
    ensures AddsCard(xs + ys, xs + [card] + ys, card)
  {
    var nodes, nodes' := xs + ys, xs + [card] + ys;
    forall i, j | 0 <= i < j < |nodes'|
      ensures nodes'[i].id != nodes'[j].id
    {
      var at := (k: int) => if k < |xs| then k else k - 1;
      if i != |xs| { assert nodes'[i] == nodes[at(i)] && nodes[at(i)] in nodes; }
      if j != |xs| { assert nodes'[j] == nodes[at(j)] && nodes[at(j)] in nodes; }
    }
    AddsCardByMembers(nodes, nodes', card);
    if !card.process.SaveResult? {
      OutputNodeInsert(xs, card, ys);
    }
  }

  /** The cards other than `id`. */
  function DropId(nodes: seq<Node>, id: Id): seq<Node> {
    if nodes == [] then []
    else if nodes[0].id == id then DropId(nodes[1..], id)
    else [nodes[0]] + DropId(nodes[1..], id)
  }

  lemma {:induction false} DropMember(nodes: seq<Node>, id: Id, n: Node)
    ensures n in DropId(nodes, id) <==> n in nodes && n.id != id
  {
    if nodes != [] {
      DropMember(nodes[1..], id, n);
    }
  }

  lemma {:induction false} DropUnique(nodes: seq<Node>, id: Id)
    requires UniqueIds(nodes)
    ensures UniqueIds(DropId(nodes, id))
  {
    if nodes != [] {
      DropUnique(nodes[1..], id);
      forall n | n in DropId(nodes[1..], id)
        ensures n.id != nodes[0].id
      {
        DropMember(nodes[1..], id, n);
        var j :| 0 <= j < |nodes[1..]| && nodes[1..][j] == n;
        assert nodes[j + 1] == n;
      }
    }
  }

  lemma {:induction false} DropNodeOf(nodes: seq<Node>, id: Id, x: Id)
    requires x != id
    ensures NodeOf(DropId(nodes, id), x) == NodeOf(nodes, x)
  {
    if nodes != [] {
      DropNodeOf(nodes[1..], id, x);
    }
  }

  lemma DropCard(nodes: seq<Node>, id: Id)
    requires UniqueIds(nodes)
    ensures DropsCard(nodes, DropId(nodes, id), id)
  {
    DropUnique(nodes, id);
    forall n {
      DropMember(nodes, id, n);
    }
    forall x | x != id {
      DropNodeOf(nodes, id, x);
    }
  }

  lemma {:induction false} DropAppend(xs: seq<Node>, ys: seq<Node>, id: Id)
    ensures DropId(xs + ys, id) == DropId(xs, id) + DropId(ys, id)
  {
    if xs == [] {
      assert xs + ys == ys;
    } else {
      assert (xs + ys)[1..] == xs[1..] + ys;
      DropAppend(xs[1..], ys, id);
    }
  }

  lemma {:induction false} DropNone(nodes: seq<Node>, id: Id)
    requires forall n :: n in nodes ==> n.id != id
    ensures DropId(nodes, id) == nodes
  {
    if nodes != [] {
      DropNone(nodes[1..], id);
    }
  }

  lemma {:induction false} OutputNodeDrop(nodes: seq<Node>, id: Id)
    requires forall n :: n in nodes && n.id == id ==> !n.process.SaveResult?
    ensures OutputNode(DropId(nodes, id)) == OutputNode(nodes)
  {
    if nodes != [] {
      OutputNodeDrop(nodes[1..], id);
    }
  }

  /** The card goes between the load and the output. */
  lemma CardAdded(head: Node, tail: seq<Node>, last: Node, card: Node)
    requires UniqueIds([head] + tail + [last]) && NodeOf([head] + tail + [last], card.id).None?
    ensures AddsCard([head] + tail + [last], [head] + (tail + [card]) + [last], card)
  {
    InsertCard([head] + tail, card, [last]);
    assert [head] + tail + [card] + [last] == [head] + (tail + [card]) + [last];
  }

  lemma BranchAdded(head: Node, tail: seq<Node>, last: Node, first: Node, second: Node)
    requires UniqueIds([head] + tail + [last]) && first.id != second.id
    requires NodeOf([head] + tail + [last], first.id).None? && NodeOf([head] + tail + [last], second.id).None?
    requires first.process.LoadCollection? && second.process.Ndvi?
    ensures AddsBranch([head] + tail + [last], [head] + (tail + [first, second]) + [last], first, second)
  {
    CardAdded(head, tail, last, first);
    CardAdded(head, tail + [first], last, second);
    assert tail + [first] + [second] == tail + [first, second];
    hide NodeOf, UniqueIds;
  }

  lemma CardDropped(head: Node, tail: seq<Node>, last: Node, card: Node)
    requires UniqueIds([head] + tail + [last]) && card in tail
    ensures DropId([head] + tail + [last], card.id) == [head] + DropId(tail, card.id) + [last]
    ensures forall n :: n in [head] + tail + [last] && n.id == card.id ==> n == card
  {
    var nodes := [head] + tail + [last];
    var i :| 0 <= i < |tail| && tail[i] == card;
    assert nodes[0] == head && nodes[i + 1] == card && nodes[|tail| + 1] == last;
    DropAppend([head] + tail, [last], card.id);
    DropAppend([head], tail, card.id);
    DropNone([head], card.id);
    DropNone([last], card.id);
    forall n | n in nodes && n.id == card.id
      ensures n == card
    {
      var j :| 0 <= j < |nodes| && nodes[j] == n;
      assert nodes[j].id == nodes[i + 1].id;
    }
  }

  /** Every id has been handed out. */
  ghost predicate Issued(nodes: seq<Node>, last: nat) {
    forall n :: n in nodes ==> exists k: nat :: k <= last && n.id == StepId(k)
  }

  lemma IssuedNext(nodes: seq<Node>, last: nat)
    requires Issued(nodes, last)
    ensures Issued(nodes, last + 1) && NodeOf(nodes, StepId(last + 1)).None?
  {
    forall n | n in nodes
      ensures n.id != StepId(last + 1)
      ensures exists k: nat :: k <= last + 1 && n.id == StepId(k)
    {
      var k: nat :| k <= last && n.id == StepId(k);
      assert k <= last + 1;
      if StepId(k) == StepId(last + 1) { StepIdInjective(k, last + 1); }
    }
  }

  lemma NotSelfFed(es: seq<Edge>, id: Id)
    requires Acyclic(es)
    ensures !SelfFed(es, id)
  {
    ReachRefl(es, id);
    if OnPath(es, id) {
      OnPathEdges(es, id);
    }
  }

  lemma RemovedAcyclic(es: seq<Edge>, id: Id)
    requires Acyclic(es) && SingleFed(es) && forall e :: e in es ==> e.from.port == Out
    ensures Acyclic(RemoveEdges(es, id))
  {
    hide RemoveEdges, Acyclic;
    NotSelfFed(es, id);
    if OnPath(es, id) {
      OnPathEdges(es, id);
      var other := id + ['.'];
      RemoveKeepsReach(es, id, other, other);
    } else {
      RemoveOffPath(es, id, id, id);
    }
  }

  // ----- The panel -----

  class Panel {
    var load: Node
    var extra: seq<Node>
    var save: Node
    var edges: seq<Edge>
    var nextId: nat

    function Cards(): seq<Node>
      reads this
    {
      [load] + extra + [save]
    }

    function Canvas(): Dag
      reads this
    {
      Dag(Cards(), edges)
    }

    /** Ids are handed out once, the wiring is well-formed and leaves by output ports,
        and only the tail is an output. */
    ghost predicate Valid()
      reads this
    {
      WellFormed(Canvas()) && Issued(Cards(), nextId) &&
      (forall e :: e in edges ==> e.from.port == Out) &&
      load.process.LoadCollection? && save.process.SaveResult? &&
      (forall n :: n in extra ==> !n.process.SaveResult?)
    }

    /** The empty pipeline: the head feeds the tail. */
    constructor ()
      ensures Valid() && extra == [] && Acyclic(edges) && load.id == "s1" && save.id == "s2"
      ensures edges == [Edge(PortRef(load.id, Out), PortRef(save.id, Data))]
    {
      load := Node(StepId(1), LoadCollection, map[]);
      save := Node(StepId(2), SaveResult, map[]);
      extra := [];
      edges := [Edge(PortRef(StepId(1), Out), PortRef(StepId(2), Data))];
      nextId := 2;
      new;
      hide StepId, WellFormed, Acyclic;
      FirstIds();
      assert Cards() == [load, save];
      EmptyPipeline(load, save, edges[0]);
      assert edges == [edges[0]];
    }

    /** A card under the next id, which no card has had. */
    method NewCard(process: Process) returns (card: Node)
      requires Valid()
      modifies this`nextId
      ensures nextId == old(nextId) + 1 && card.id == StepId(nextId) && card.process == process
      ensures Valid() && NodeOf(Cards(), card.id).None?
    {
      hide WellFormed, Issued, StepId;
      IssuedNext(Cards(), nextId);
      nextId := nextId + 1;
      card := Node(StepId(nextId), process, map[]);
    }

    /** Inserts a step on an edge: the edge's source feeds the new step's first input, the
        step feeds the edge's old target. A process with no input changes nothing. */
    method InsertOn(edge: Edge, process: Process) returns (ghost card: Node)
      requires Valid() && edge in edges && HasOutput(process)
      modifies this
      ensures Valid() && load == old(load) && save == old(save)
      ensures Inputs(process) == [] ==> edges == old(edges) && extra == old(extra)
      ensures Inputs(process) != [] ==>
        card.process == process && AddsCard(old(Cards()), Cards(), card) && extra == old(extra) + [card] &&
        Unwired(old(edges), card.id) && edges == InsertEdges(old(edges), edge, card.id, Inputs(process)[0])
      ensures Acyclic(edges) <==> Acyclic(old(edges))
    {
      hide InsertEdges, AddsCard, Acyclic, WellFormed, Issued, StepId, NodeOf;
      ghost var before := Canvas();
      var added := NewCard(process);
      card := added;
      if Inputs(process) == [] {
        return;
      }
      var port := Inputs(process)[0];
      edges := InsertEdges(edges, edge, added.id, port);
      extra := extra + [added];
      ValidNodes(before);
      CardAdded(load, old(extra), save, card);
      InsertKeepsWellFormed(before, Canvas(), edge, card);
      InsertMembers(before.edges, edge, card.id, port);
      InsertKeepsAcyclic(before.edges, edge, card.id, port);
      IssuedWith(before.nodes, Cards(), card, nextId);
    }

    /** Joins two steps: the join takes both as its inputs and takes over what the first
        one fed. */
    method JoinPair(a: Id, b: Id, process: Process) returns (ghost card: Node)
      requires Valid() && a != b && HasOutput(process)
      requires NodeOf(Cards(), a).Some? && HasOutput(NodeOf(Cards(), a).value.process)
      requires NodeOf(Cards(), b).Some? && HasOutput(NodeOf(Cards(), b).value.process)
      modifies this
      ensures Valid() && load == old(load) && save == old(save)
      ensures |Inputs(process)| < 2 ==> edges == old(edges) && extra == old(extra)
      ensures |Inputs(process)| >= 2 ==>
        card.process == process && AddsCard(old(Cards()), Cards(), card) && extra == old(extra) + [card] &&
        Unwired(old(edges), card.id) && edges == JoinEdges(old(edges), a, b, card.id, Cube1, Cube2)
      ensures |Inputs(process)| >= 2 && Acyclic(old(edges)) ==> (Acyclic(edges) <==> !Reach(old(edges), a, b))
    {
      hide JoinEdges, AddsCard, Acyclic, WellFormed, Issued, StepId, NodeOf, Reach, EdgeFits, UniqueIds, SingleFed;
      ghost var before := Canvas();
      var ports := Inputs(process);
      if |ports| < 2 {
        card := load;
        return;
      }
      var added := NewCard(process);
      card := added;
      edges := JoinEdges(edges, a, b, added.id, ports[0], ports[1]);
      extra := extra + [added];
      ValidNodes(before);
      CardAdded(load, old(extra), save, card);
      JoinKeepsWellFormed(before, Canvas(), a, b, card);
      JoinMembers(before.edges, a, b, card.id, Cube1, Cube2);
      IssuedWith(before.nodes, Cards(), card, nextId);
      if Acyclic(before.edges) {
        JoinAcyclic(before.edges, a, b, card.id, Cube1, Cube2);
      }
    }

    /** Removes a middle step: with one input and one output its neighbours join up,
        otherwise its edges go. The panel's state stays valid unless the step's one input
        and its one output are the same edge, which then stays behind. */
    method RemoveCard(card: Node)
      requires Valid() && card in extra
      modifies this
      ensures load == old(load) && save == old(save) && nextId == old(nextId)
      ensures extra == DropId(old(extra), card.id) && edges == RemoveEdges(old(edges), card.id)
      ensures DropsCard(old(Cards()), Cards(), card.id) && OutputNode(Cards()) == OutputNode(old(Cards()))
      ensures Valid() <==> !SelfFed(old(edges), card.id)
      ensures Acyclic(old(edges)) ==> Valid() && Acyclic(edges)
    {
      hide RemoveEdges, DropsCard, Acyclic, WellFormed, OnPath, SelfFed, Issued, OutputNode;
      ghost var before := Canvas();
      ValidNodes(before);
      edges := RemoveEdges(edges, card.id);
      extra := DropId(extra, card.id);
      CardDropped(load, old(extra), save, card);
      DropCard(before.nodes, card.id);
      OutputNodeDrop(before.nodes, card.id);
      if Acyclic(before.edges) {
        NotSelfFed(before.edges, card.id);
        RemovedAcyclic(before.edges, card.id);
      }
      RemoveKeepsWellFormed(before, Canvas(), card.id);
      BridgePorts(before.edges, card.id);
      IssuedWithout(before.nodes, card.id, nextId);
      DroppedProcesses(old(extra), card.id);
    }

    /** Starts a branch into a free port: a load feeding an NDVI, wired into the port.
        Nothing happens unless both processes are served. */
    method StartBranch(id: Id, port: Port, served: set<Process>) returns (ghost first: Node, ghost second: Node)
      requires Valid() && NodeOf(Cards(), id).Some? && port in Inputs(NodeOf(Cards(), id).value.process)
      requires Feeding(edges, id, port).None?
      modifies this
      ensures Valid() && load == old(load) && save == old(save)
      ensures LoadCollection !in served || Ndvi !in served ==> edges == old(edges) && extra == old(extra)
      ensures LoadCollection in served && Ndvi in served ==>
        AddsBranch(old(Cards()), Cards(), first, second) && extra == old(extra) + [first, second] &&
        edges == BranchEdges(old(edges), first.id, second.id, id, port)
      ensures Acyclic(edges) <==> Acyclic(old(edges))
    {
      hide AddsBranch, Acyclic, WellFormed, Issued, StepId, NodeOf, Feeding;
      ghost var before := Canvas();
      if LoadCollection !in served || Ndvi !in served {
        first, second := load, load;
        return;
      }
      var card := NewCard(LoadCollection);
      var ndvi := NewCard(Ndvi);
      first, second := card, ndvi;
      if card.id == ndvi.id { StepIdInjective(nextId - 1, nextId); }
      extra := extra + [card, ndvi];
      edges := edges
        + [Edge(PortRef(card.id, Out), PortRef(ndvi.id, Data)), Edge(PortRef(ndvi.id, Out), PortRef(id, port))];
      ValidNodes(before);
      BranchAdded(load, old(extra), save, first, second);
      BranchKeepsWellFormed(before, Canvas(), first, second, id, port);
      BranchApart(before, Cards(), first, second, id);
      BranchKeepsAcyclic(before.edges, first.id, second.id, id, port);
      IssuedBranch(before.nodes, Cards(), first, second, nextId);
    }
  }

  // ----- What the methods rest on -----

  lemma EmptyPipeline(head: Node, last: Node, e: Edge)
    requires head.process.LoadCollection? && last.process.SaveResult? && head.id != last.id
    requires e == Edge(PortRef(head.id, Out), PortRef(last.id, Data))
    ensures WellFormed(Dag([head, last], [e])) && Acyclic([e])
  {
    assert NodeOf([head, last], head.id) == Some(head);
    assert [head, last][1..] == [last] && NodeOf([last], last.id) == Some(last);
    assert [] + [e] == [e];
    if Reach([], e.to.node, e.from.node) {
      var c := ReachFirst([], e.to.node, e.from.node);
    }
    AcyclicAddEdge([], e);
  }

  lemma ValidNodes(dag: Dag)
    requires WellFormed(dag)
    ensures UniqueIds(dag.nodes) && SingleFed(dag.edges)
  {
  }

  lemma IssuedWith(nodes: seq<Node>, nodes': seq<Node>, card: Node, last: nat)
    requires Issued(nodes, last) && card.id == StepId(last) && AddsCard(nodes, nodes', card)
    ensures Issued(nodes', last)
  {
    assert last <= last && card.id == StepId(last);
    forall n | n in nodes'
      ensures exists k: nat :: k <= last && n.id == StepId(k)
    {
      if n != card { assert n in nodes; }
    }
  }

  lemma IssuedBranch(nodes: seq<Node>, nodes': seq<Node>, first: Node, second: Node, last: nat)
    requires Issued(nodes, last) && last > 0 && first.id == StepId(last - 1) && second.id == StepId(last)
    requires AddsBranch(nodes, nodes', first, second)
    ensures Issued(nodes', last)
  {
    forall n | n in nodes'
      ensures exists k: nat :: k <= last && n.id == StepId(k)
    {
      if n == first {
        assert last - 1 <= last && n.id == StepId(last - 1);
      } else if n == second {
        assert last <= last && n.id == StepId(last);
      } else {
        assert n in nodes;
      }
    }
  }

  lemma IssuedWithout(nodes: seq<Node>, id: Id, last: nat)
    requires Issued(nodes, last)
    ensures Issued(DropId(nodes, id), last)
  {
    forall n | n in DropId(nodes, id)
      ensures n in nodes
    {
      DropMember(nodes, id, n);
    }
  }

  lemma DroppedProcesses(nodes: seq<Node>, id: Id)
    requires forall n :: n in nodes ==> !n.process.SaveResult?
    ensures forall n :: n in DropId(nodes, id) ==> !n.process.SaveResult?
  {
    forall n | n in DropId(nodes, id)
      ensures n in nodes
    {
      DropMember(nodes, id, n);
    }
  }

  lemma BridgePorts(es: seq<Edge>, id: Id)
    requires forall e :: e in es ==> e.from.port == Out
    ensures forall e :: e in RemoveEdges(es, id) ==> e.from.port == Out
  {
    RemoveMembers(es, id);
    if OnPath(es, id) {
      OnPathEdges(es, id);
    }
  }

  lemma BranchApart(dag: Dag, nodes': seq<Node>, first: Node, second: Node, id: Id)
    requires WellFormed(dag) && AddsBranch(dag.nodes, nodes', first, second) && NodeOf(dag.nodes, id).Some?
    ensures Unwired(dag.edges, first.id) && Unwired(dag.edges, second.id)
    ensures first.id != second.id && id != first.id && id != second.id
  {
    FreshUnwired(dag, first.id);
    FreshUnwired(dag, second.id);
  }

  /** Inserting a join and starting a branch into its free input, one edit after the
      other, is the joined graph whose typing is kept. */
  lemma InsertThenBranch(d0: Dag, d1: Dag, d2: Dag, e: Edge, join: Node, load: Node, ndvi: Node)
    requires AddsCard(d0.nodes, d1.nodes, join) && join.process.MergeCubes?
    requires d1.edges == InsertEdges(d0.edges, e, join.id, Cube1)
    requires AddsBranch(d1.nodes, d2.nodes, load, ndvi)
    requires d2.edges == BranchEdges(d1.edges, load.id, ndvi.id, join.id, Cube2)
    ensures JoinedByBranch(d0, d2, e, join, load, ndvi)
  {
    hide InsertEdges, BranchEdges, UniqueIds, NodeOf, OutputNode;
  }

  // ----- What the join offer asks -----

  datatype JoinIssue = NotAStep(id: Id) | NoCube(id: Id) | NoResult(id: Id) | DifferentKinds

  ghost function EndIssue(dag: Dag, id: Id): Option<JoinIssue> {
    match NodeOf(dag.nodes, id)
    case None => Some(NotAStep(id))
    case Some(node) =>
      if !HasOutput(node.process) then Some(NoCube(id))
      else if Typ(dag, id).None? then Some(NoResult(id))
      else None
  }

  /** Why two steps cannot be joined: one is no step, has no output or no type, or their
      kinds differ. */
  ghost function JoinIssueOf(dag: Dag, a: Id, b: Id): Option<JoinIssue> {
    if EndIssue(dag, a).Some? then EndIssue(dag, a)
    else if EndIssue(dag, b).Some? then EndIssue(dag, b)
    else if Typ(dag, a).value.kind != Typ(dag, b).value.kind then Some(DifferentKinds)
    else None
  }

  /** What can be said against an end of a join: it is no card, gives no cube, or has no type. */
  lemma EndIssueExactly(dag: Dag, id: Id)
    ensures EndIssue(dag, id) == Some(NotAStep(id)) <==> forall n :: n in dag.nodes ==> n.id != id
    ensures EndIssue(dag, id) == Some(NoCube(id)) <==>
      NodeOf(dag.nodes, id).Some? && !HasOutput(NodeOf(dag.nodes, id).value.process)
    ensures EndIssue(dag, id) == Some(NoResult(id)) <==>
      NodeOf(dag.nodes, id).Some? && HasOutput(NodeOf(dag.nodes, id).value.process) && Typ(dag, id).None?
    ensures EndIssue(dag, id).Some? ==>
      EndIssue(dag, id) in {Some(NotAStep(id)), Some(NoCube(id)), Some(NoResult(id))}
  {
    hide Typ;
  }

  /** Two ends are offered to be joined exactly when both are typed cards that give a cube and
      their kinds are the same; otherwise the first end's fault is told before the second's, and
      a difference of kinds last. */
  lemma JoinIssueExactly(dag: Dag, a: Id, b: Id)
    ensures JoinIssueOf(dag, a, b) == None <==>
      EndIssue(dag, a).None? && EndIssue(dag, b).None? && Typ(dag, a).value.kind == Typ(dag, b).value.kind
    ensures JoinIssueOf(dag, a, b) == Some(DifferentKinds) <==>
      EndIssue(dag, a).None? && EndIssue(dag, b).None? && Typ(dag, a).value.kind != Typ(dag, b).value.kind
    ensures EndIssue(dag, a).Some? ==> JoinIssueOf(dag, a, b) == EndIssue(dag, a)
    ensures EndIssue(dag, a).None? && EndIssue(dag, b).Some? ==> JoinIssueOf(dag, a, b) == EndIssue(dag, b)
  {
    hide Typ;
  }

  method FindJoinIssue(dag: Dag, a: Id, b: Id) returns (issue: Option<JoinIssue>)
    ensures issue == JoinIssueOf(dag, a, b)
  {
    hide Typ;
    var typer := new Typer(dag);
    var ids := [a, b];
    for i := 0 to 2
      invariant typer.Valid() && typer.visiting == {} && typer.dag == dag
      invariant forall j :: 0 <= j < i ==> EndIssue(dag, ids[j]).None?
    {
      assert i == 1 ==> EndIssue(dag, ids[0]).None?;
      var node := NodeOf(dag.nodes, ids[i]);
      if node.None? {
        return Some(NotAStep(ids[i]));
      }
      if !HasOutput(node.value.process) {
        return Some(NoCube(ids[i]));
      }
      var stage := typer.TypeOf(ids[i]);
      if stage.None? {
        return Some(NoResult(ids[i]));
      }
    }
    assert EndIssue(dag, ids[0]).None? && EndIssue(dag, ids[1]).None?;
    var left := typer.TypeOf(a);
    var right := typer.TypeOf(b);
    if left.value.kind != right.value.kind {
      return Some(DifferentKinds);
    }
    return None;
  }
}
