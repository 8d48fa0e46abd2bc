/** Kahn's ordering of the graph, and the layers the panel lays it out by. */
module Ordering {
  import opened Wrappers
  import opened Graph
  import opened Typing

  /** The ids that can be ordered within `k` rounds: all their sources are, one round earlier. */
  ghost function Settled(dag: Dag, k: nat): set<Id> {
    if k == 0 then {} else Ready(dag, Settled(dag, k - 1))
  }

  /** The ids all of whose sources are in `s`. */
  function Ready(dag: Dag, s: set<Id>): set<Id> {
    set n | n in dag.nodes && SourcesIn(dag, n.id, s) :: n.id
  }

  /** Every source of `id` on the canvas is in `s`. */
  predicate SourcesIn(dag: Dag, id: Id, s: set<Id>) {
    forall e :: e in dag.edges && e.to.node == id && e.from.node in Ids(dag) ==> e.from.node in s
  }

  /** The nodes with an id in `ids`, in presentation order. */
  function Pick(nodes: seq<Node>, ids: set<Id>): seq<Node> {
    if nodes == [] then []
    else if nodes[0].id in ids then [nodes[0]] + Pick(nodes[1..], ids)
    else Pick(nodes[1..], ids)
  }

  lemma {:induction false} PickMember(nodes: seq<Node>, ids: set<Id>, n: Node)
    ensures n in Pick(nodes, ids) <==> n in nodes && n.id in ids
  {
    if nodes != [] {
      PickMember(nodes[1..], ids, n);
    }
  }

  lemma PickMembers(nodes: seq<Node>, ids: set<Id>)
    ensures forall n :: n in Pick(nodes, ids) <==> n in nodes && n.id in ids
  {
    forall n {
      PickMember(nodes, ids, n);
    }
  }

  /** The nodes of the `k`-th round, in presentation order. */
  ghost function Layer(dag: Dag, k: nat): seq<Node> {
    Pick(dag.nodes, Settled(dag, k + 1) - Settled(dag, k))
  }

  ghost function Layers(dag: Dag, k: nat): seq<Node> {
    if k == 0 then [] else Layers(dag, k - 1) + Layer(dag, k - 1)
  }

  /** The ordering: as many rounds as there are nodes. */
  ghost function Order(dag: Dag): seq<Node> {
    Layers(dag, |dag.nodes|)
  }

  lemma {:induction false} SettledMono(dag: Dag, k: nat)
    ensures Settled(dag, k) <= Settled(dag, k + 1) <= Ids(dag)
  {
    if k > 0 {
      SettledMono(dag, k - 1);
    }
  }

  lemma {:induction false} SettledLe(dag: Dag, j: nat, k: nat)
    requires j <= k
    ensures Settled(dag, j) <= Settled(dag, k)
    decreases k - j
  {
    if j < k {
      SettledMono(dag, j);
      SettledLe(dag, j + 1, k);
    }
  }

  lemma {:induction false} PickNone(nodes: seq<Node>)
    ensures Pick(nodes, {}) == []
  {
    if nodes != [] {
      PickNone(nodes[1..]);
    }
  }

  lemma {:induction false} PickAll(nodes: seq<Node>, ids: set<Id>)
    requires forall n :: n in nodes ==> n.id in ids
    ensures Pick(nodes, ids) == nodes
  {
    if nodes != [] {
      PickAll(nodes[1..], ids);
    }
  }

  lemma {:induction false} PickPick(nodes: seq<Node>, a: set<Id>, b: set<Id>)
    ensures Pick(Pick(nodes, a), b) == Pick(nodes, a * b)
  {
    if nodes != [] {
      PickPick(nodes[1..], a, b);
      if nodes[0].id in a {
        var p := [nodes[0]] + Pick(nodes[1..], a);
        assert p[1..] == Pick(nodes[1..], a);
      }
    }
  }

  lemma {:induction false} PickSplitSize(nodes: seq<Node>, a: set<Id>, b: set<Id>)
    requires a !! b && forall n :: n in nodes ==> n.id in a + b
    ensures |Pick(nodes, a)| + |Pick(nodes, b)| == |nodes|
  {
    if nodes != [] {
      PickSplitSize(nodes[1..], a, b);
    }
  }

  lemma EmptyRound(dag: Dag, k: nat)
    requires Settled(dag, k + 1) == Settled(dag, k)
    ensures Layers(dag, k + 1) == Layers(dag, k)
  {
    PickNone(dag.nodes);
    assert Settled(dag, k + 1) - Settled(dag, k) == {};
  }

  lemma NextSettled(dag: Dag, k: nat)
    ensures Settled(dag, k + 1) == Ready(dag, Settled(dag, k))
  {
  }

  /** A round that settles nothing new is the last that matters. */
  lemma {:induction false} SettledStable(dag: Dag, j: nat, k: nat)
    requires j <= k && Settled(dag, j + 1) == Settled(dag, j)
    ensures Settled(dag, k) == Settled(dag, j)
    decreases k
  {
    hide *;
    if j < k {
      SettledStable(dag, j, k - 1);
      NextSettled(dag, j);
      NextSettled(dag, k - 1);
    }
  }

  lemma {:induction false} LayersStable(dag: Dag, j: nat, k: nat)
    requires j <= k && Settled(dag, j + 1) == Settled(dag, j)
    ensures Layers(dag, k) == Layers(dag, j)
    decreases k
  {
    hide *;
    if j < k {
      LayersStable(dag, j, k - 1);
      SettledStable(dag, j, k - 1);
      SettledStable(dag, j, k);
      EmptyRound(dag, k - 1);
    }
  }

  /** None of the node's sources is among those left. */
  predicate ReadyNow(dag: Dag, n: Node, left: set<Id>) {
    forall e :: e in dag.edges && e.to.node == n.id ==> e.from.node !in left
  }

  /** The nodes keyed by id: a node takes the place of an earlier one with its id. */
  function Put(nodes: seq<Node>, n: Node): seq<Node> {
    if nodes == [] then [n]
    else if nodes[0].id == n.id then [n] + nodes[1..]
    else [nodes[0]] + Put(nodes[1..], n)
  }

  function Keyed(nodes: seq<Node>): seq<Node> {
    if nodes == [] then [] else Put(Keyed(nodes[..|nodes| - 1]), nodes[|nodes| - 1])
  }

  lemma {:induction false} PutMember(nodes: seq<Node>, n: Node, m: Node)
    ensures m in Put(nodes, n) ==> m == n || m in nodes
    ensures (forall m :: m in nodes ==> m.id != n.id) ==> Put(nodes, n) == nodes + [n]
  {
    if nodes != [] {
      PutMember(nodes[1..], n, m);
    }
  }

  lemma {:induction false} PutUnique(nodes: seq<Node>, n: Node)
    requires UniqueIds(nodes)
    ensures UniqueIds(Put(nodes, n))
  {
    if nodes != [] {
      PutUnique(nodes[1..], n);
      forall m | m in Put(nodes[1..], n)
        ensures m == n || m.id != nodes[0].id
      {
        PutMember(nodes[1..], n, m);
      }
    }
  }

  lemma {:induction false} KeyedUnique(nodes: seq<Node>)
    ensures UniqueIds(Keyed(nodes))
  {
    if nodes != [] {
      KeyedUnique(nodes[..|nodes| - 1]);
      PutUnique(Keyed(nodes[..|nodes| - 1]), nodes[|nodes| - 1]);
    }
  }

  /** With unique ids nothing is replaced. */
  lemma {:induction false} KeyedSame(nodes: seq<Node>)
    requires UniqueIds(nodes)
    ensures Keyed(nodes) == nodes
  {
    if nodes != [] {
      var front, last := nodes[..|nodes| - 1], nodes[|nodes| - 1];
      KeyedSame(front);
      PutMember(front, last, last);
    }
  }

  /** The ids in the order they are first seen. */
  function SeenIds(nodes: seq<Node>): seq<Id> {
    if nodes == [] then []
    else
      var seen, last := SeenIds(nodes[..|nodes| - 1]), nodes[|nodes| - 1].id;
      if last in seen then seen else seen + [last]
  }

  function IdsOf(nodes: seq<Node>): (ids: seq<Id>)
    ensures |ids| == |nodes| && forall i :: 0 <= i < |ids| ==> ids[i] == nodes[i].id
  {
    seq(|nodes|, i requires 0 <= i < |nodes| => nodes[i].id)
  }

  lemma {:induction false} PutIds(nodes: seq<Node>, n: Node)
    ensures IdsOf(Put(nodes, n)) == if n.id in IdsOf(nodes) then IdsOf(nodes) else IdsOf(nodes) + [n.id]
    ensures forall id :: NodeOf(Put(nodes, n), id) == if id == n.id then Some(n) else NodeOf(nodes, id)
  {
    if nodes == [] {
      assert IdsOf([n]) == [n.id];
      assert forall id :: NodeOf([n], id) == if id == n.id then Some(n) else NodeOf(nodes, id);
    } else {
      var head, rest := nodes[0], nodes[1..];
      PutIds(rest, n);
      assert IdsOf(nodes) == [head.id] + IdsOf(rest);
      if head.id == n.id {
        assert IdsOf([n] + rest) == [n.id] + IdsOf(rest);
        assert ([n] + rest)[1..] == rest;
      } else {
        assert IdsOf([head] + Put(rest, n)) == [head.id] + IdsOf(Put(rest, n));
        assert ([head] + Put(rest, n))[1..] == Put(rest, n);
      }
    }
  }

  /** Keyed by id, the ids keep the order they are first seen in, and each stands for the last
      node with it. */
  lemma {:induction false} KeyedLatest(nodes: seq<Node>)
    ensures IdsOf(Keyed(nodes)) == SeenIds(nodes)
    ensures forall i :: 0 <= i < |nodes| && (forall j :: i < j < |nodes| ==> nodes[j].id != nodes[i].id) ==>
              NodeOf(Keyed(nodes), nodes[i].id) == Some(nodes[i])
  {
    hide Put, NodeOf;
    if nodes != [] {
      var front, last := nodes[..|nodes| - 1], nodes[|nodes| - 1];
      KeyedLatest(front);
      PutIds(Keyed(front), last);
      forall i | 0 <= i < |nodes| && forall j :: i < j < |nodes| ==> nodes[j].id != nodes[i].id
        ensures NodeOf(Keyed(nodes), nodes[i].id) == Some(nodes[i])
      {
        if i < |front| {
          assert nodes[|front|].id != nodes[i].id && front[i] == nodes[i];
          assert forall j :: i < j < |front| ==> front[j] == nodes[j];
        }
      }
    }
  }

  /** Nodes in topological order, ties by presentation order: round by round, the
      remaining nodes none of whose sources remain. */
  method Topological(dag: Dag) returns (order: seq<Node>)
    ensures order == Order(Dag(Keyed(dag.nodes), dag.edges))
    ensures UniqueIds(dag.nodes) ==> order == Order(dag)
  {
    hide Settled, Ready, Pick, SourcesIn, ReadyNow, Ids, Layer, Put;
    if UniqueIds(dag.nodes) { KeyedSame(dag.nodes); }
    var remaining: seq<Node> := [];
    for i := 0 to |dag.nodes|
      invariant remaining == Keyed(dag.nodes[..i])
    {
      assert dag.nodes[..i + 1][..i] == dag.nodes[..i];
      remaining := Put(remaining, dag.nodes[i]);
    }
    assert dag.nodes[..|dag.nodes|] == dag.nodes;
    KeyedUnique(dag.nodes);
    order := Rounds(Dag(remaining, dag.edges));
  }

  /** The rounds, over nodes keyed by id. */
  method Rounds(dag: Dag) returns (order: seq<Node>)
    requires UniqueIds(dag.nodes)
    ensures order == Order(dag)
  {
    hide Settled, Ready, Pick, SourcesIn, ReadyNow, Ids, Layer;
    var remaining := dag.nodes;
    order := [];
    ghost var k: nat := 0;
    FirstRound(dag);
    while |remaining| > 0
      invariant order == Layers(dag, k)
      invariant remaining == Pick(dag.nodes, Ids(dag) - Settled(dag, k))
      invariant k + |remaining| <= |dag.nodes|
      decreases |remaining|
    {
      var left := set n | n in remaining :: n.id;
      var readyIds := set n | n in remaining && ReadyNow(dag, n, left) :: n.id;
      var ready := Pick(remaining, readyIds);
      Round(dag, k, remaining, left, readyIds);
      if |ready| == 0 {
        LayerEmpty(dag, k);
        LayersStable(dag, k, |dag.nodes|);
        return;
      }
      order := order + ready;
      remaining := Pick(remaining, left - readyIds);
      k := k + 1;
    }
    NothingRemains(dag, k);
    LayersStable(dag, k, |dag.nodes|);
  }

  lemma FirstRound(dag: Dag)
    ensures Pick(dag.nodes, Ids(dag) - Settled(dag, 0)) == dag.nodes
  {
    PickAll(dag.nodes, Ids(dag) - Settled(dag, 0));
  }

  /** One round: what is ready is what the round settles, and the rest remains. */
  lemma Round(dag: Dag, k: nat, remaining: seq<Node>, left: set<Id>, readyIds: set<Id>)
    requires UniqueIds(dag.nodes) && remaining == Pick(dag.nodes, Ids(dag) - Settled(dag, k))
    requires left == set n | n in remaining :: n.id
    requires readyIds == set n | n in remaining && ReadyNow(dag, n, left) :: n.id
    ensures Pick(remaining, readyIds) == Layer(dag, k)
    ensures Pick(remaining, left - readyIds) == Pick(dag.nodes, Ids(dag) - Settled(dag, k + 1))
    ensures |Pick(remaining, readyIds)| + |Pick(remaining, left - readyIds)| == |remaining|
  {
    RoundIds(dag, k, remaining, left, readyIds);
    PickPick(dag.nodes, left, readyIds);
    assert left * readyIds == readyIds;
    PickPick(dag.nodes, left, left - readyIds);
    assert left * (left - readyIds) == left - readyIds;
    PickSplitSize(remaining, readyIds, left - readyIds);
  }

  /** What is ready in round `k` is what that round settles. */
  lemma RoundIds(dag: Dag, k: nat, remaining: seq<Node>, left: set<Id>, readyIds: set<Id>)
    requires UniqueIds(dag.nodes) && remaining == Pick(dag.nodes, Ids(dag) - Settled(dag, k))
    requires left == set n | n in remaining :: n.id
    requires readyIds == set n | n in remaining && ReadyNow(dag, n, left) :: n.id
    ensures left == Ids(dag) - Settled(dag, k)
    ensures readyIds == Settled(dag, k + 1) - Settled(dag, k)
    ensures left - readyIds == Ids(dag) - Settled(dag, k + 1)
  {
    PickMembers(dag.nodes, Ids(dag) - Settled(dag, k));
    forall id | id in Ids(dag) - Settled(dag, k)
      ensures id in left
    {
      var n :| n in dag.nodes && n.id == id;
      assert n in remaining;
    }
    forall n | n in dag.nodes
      ensures ReadyNow(dag, n, left) <==> SourcesIn(dag, n.id, Settled(dag, k))
    {
    }
    SettledMono(dag, k);
    forall id | id in Settled(dag, k + 1) - Settled(dag, k)
      ensures id in readyIds
    {
      var n :| n in dag.nodes && SourcesIn(dag, n.id, Settled(dag, k)) && n.id == id;
      assert n in remaining;
    }
  }

  lemma LayerEmpty(dag: Dag, k: nat)
    requires Layer(dag, k) == []
    ensures Settled(dag, k + 1) == Settled(dag, k)
  {
    SettledMono(dag, k);
    PickMembers(dag.nodes, Settled(dag, k + 1) - Settled(dag, k));
    forall id | id in Settled(dag, k + 1)
      ensures id in Settled(dag, k)
    {
      var n :| n in dag.nodes && n.id == id;
      assert n in Layer(dag, k) || id in Settled(dag, k);
    }
  }

  lemma NothingRemains(dag: Dag, k: nat)
    requires Pick(dag.nodes, Ids(dag) - Settled(dag, k)) == []
    ensures Settled(dag, k + 1) == Settled(dag, k)
  {
    SettledMono(dag, k);
    PickMembers(dag.nodes, Ids(dag) - Settled(dag, k));
    forall n | n in dag.nodes
      ensures n.id in Settled(dag, k)
    {
      assert n in Pick(dag.nodes, Ids(dag) - Settled(dag, k)) || n.id in Settled(dag, k);
    }
  }
}
