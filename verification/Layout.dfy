/** What the ordering means in terms of paths: layers by longest path, cycles omitted,
    and the depth the panel lays a node out by. */
module Layout {
  import opened Graph
  import opened Paths
  import opened Typing
  import opened Ordering

  /** Edges stay on the canvas. */
  predicate EndsOnCanvas(dag: Dag) {
    forall e :: e in dag.edges ==> e.from.node in Ids(dag) && e.to.node in Ids(dag)
  }

  lemma WellFormedEnds(dag: Dag)
    requires WellFormed(dag)
    ensures EndsOnCanvas(dag) && UniqueIds(dag.nodes)
  {
    forall e | e in dag.edges
      ensures e.from.node in Ids(dag) && e.to.node in Ids(dag)
    {
      NodeOfIn(dag.nodes, e.from.node);
      NodeOfIn(dag.nodes, e.to.node);
    }
  }

  ghost predicate PathTo(es: seq<Edge>, p: seq<Id>, id: Id) {
    IsPath(es, p) && p[|p| - 1] == id
  }

  /** The longest path ending at `id` has `d` edges. */
  ghost predicate Depth(es: seq<Edge>, id: Id, d: nat) {
    (exists p :: PathTo(es, p, id) && |p| == d + 1) &&
    (forall p :: PathTo(es, p, id) ==> |p| <= d + 1)
  }

  /** The node lies on a closed walk. */
  ghost predicate OnCycle(es: seq<Edge>, c: Id) {
    exists p :: IsPath(es, p) && |p| > 1 && p[0] == c && p[|p| - 1] == c
  }

  // ----- Rounds are path lengths -----

  lemma SettledNode(dag: Dag, k: nat, id: Id)
    requires EndsOnCanvas(dag) && id in Ids(dag)
    ensures id in Settled(dag, k + 1) <==> forall a :: Linked(dag.edges, a, id) ==> a in Settled(dag, k)
  {
    NextSettled(dag, k);
    var n :| n in dag.nodes && n.id == id;
    hide Settled;
    assert id in Settled(dag, k + 1) <==> SourcesIn(dag, id, Settled(dag, k));
  }

  /** A node settles within `k` rounds exactly when no path to it has more than `k` nodes. */
  lemma {:induction false} SettledPaths(dag: Dag, k: nat, id: Id)
    requires EndsOnCanvas(dag) && id in Ids(dag)
    ensures id in Settled(dag, k) <==> forall p :: PathTo(dag.edges, p, id) ==> |p| <= k
  {
    hide Settled, Ids;
    if k == 0 {
      assert PathTo(dag.edges, [id], id);
      NoneSettled(dag);
    } else {
      SettledNode(dag, k - 1, id);
      if id in Settled(dag, k) {
        forall p | PathTo(dag.edges, p, id)
          ensures |p| <= k
        {
          ShorterPath(dag, k, p);
        }
      }
      if forall p :: PathTo(dag.edges, p, id) ==> |p| <= k {
        forall a | Linked(dag.edges, a, id)
          ensures a in Settled(dag, k - 1)
        {
          LinkedOnCanvas(dag, a, id);
          forall p | PathTo(dag.edges, p, a)
            ensures |p| <= k - 1
          {
            assert PathTo(dag.edges, p + [id], id);
          }
          SettledPaths(dag, k - 1, a);
        }
      }
    }
  }

  lemma NoneSettled(dag: Dag)
    ensures Settled(dag, 0) == {}
  {
  }

  lemma LinkedOnCanvas(dag: Dag, a: Id, b: Id)
    requires EndsOnCanvas(dag) && Linked(dag.edges, a, b)
    ensures a in Ids(dag) && b in Ids(dag)
  {
  }

  lemma {:induction false} ShorterPath(dag: Dag, k: nat, p: seq<Id>)
    requires EndsOnCanvas(dag) && k > 0 && IsPath(dag.edges, p)
    requires p[|p| - 1] in Ids(dag) && p[|p| - 1] in Settled(dag, k)
    ensures |p| <= k
    decreases k
  {
    hide Settled, Ids;
    if |p| > 1 {
      var q := p[..|p| - 1];
      assert Linked(dag.edges, p[|p| - 2], p[|p| - 1]);
      LinkedOnCanvas(dag, p[|p| - 2], p[|p| - 1]);
      SettledNode(dag, k - 1, p[|p| - 1]);
      NoneSettled(dag);
      ShorterPath(dag, k - 1, q);
    }
  }

  // ----- The order -----

  predicate Before<T(==)>(xs: seq<T>, x: T, y: T) {
    exists a, b :: 0 <= a < b < |xs| && xs[a] == x && xs[b] == y
  }

  lemma {:induction false} PickOrder(nodes: seq<Node>, ids: set<Id>, i: nat, j: nat)
    requires i < j < |Pick(nodes, ids)|
    ensures Before(nodes, Pick(nodes, ids)[i], Pick(nodes, ids)[j])
  {
    var r := Pick(nodes, ids);
    var rest := Pick(nodes[1..], ids);
    if nodes[0].id in ids {
      if i == 0 {
        assert r[j] == rest[j - 1] && rest[j - 1] in rest;
        PickMember(nodes[1..], ids, r[j]);
        var b :| 0 <= b < |nodes| - 1 && nodes[1..][b] == r[j];
        assert nodes[0] == r[0] && nodes[b + 1] == r[j];
      } else {
        PickOrder(nodes[1..], ids, i - 1, j - 1);
        BeforeTail(nodes, r[i], r[j]);
      }
    } else {
      PickOrder(nodes[1..], ids, i, j);
      BeforeTail(nodes, r[i], r[j]);
    }
  }

  lemma BeforeTail<T>(xs: seq<T>, x: T, y: T)
    requires xs != [] && Before(xs[1..], x, y)
    ensures Before(xs, x, y)
  {
    var a, b :| 0 <= a < b < |xs| - 1 && xs[1..][a] == x && xs[1..][b] == y;
    assert xs[a + 1] == x && xs[b + 1] == y;
  }

  /** Where a position of the first `k` rounds' output falls: its round, and its place in it. */
  lemma {:induction false} RoundOf(dag: Dag, k: nat, i: nat) returns (r: nat, at: nat)
    requires i < |Layers(dag, k)|
    ensures r < k && at < |Layer(dag, r)| && Layer(dag, r)[at] == Layers(dag, k)[i]
    ensures i == |Layers(dag, r)| + at
  {
    hide Settled, Pick, Layer;
    if i < |Layers(dag, k - 1)| {
      r, at := RoundOf(dag, k - 1, i);
    } else {
      r, at := k - 1, i - |Layers(dag, k - 1)|;
    }
  }

  lemma {:induction false} LayersGrow(dag: Dag, j: nat, k: nat)
    requires j < k
    ensures |Layers(dag, j)| + |Layer(dag, j)| <= |Layers(dag, k)|
    decreases k
  {
    hide Settled, Pick, Layer;
    if j < k - 1 {
      LayersGrow(dag, j, k - 1);
    }
  }

  /** The nodes of round `r` are exactly those of depth `r`. */
  lemma LayerDepth(dag: Dag, r: nat, n: Node)
    requires EndsOnCanvas(dag)
    ensures n in Layer(dag, r) <==> n in dag.nodes && Depth(dag.edges, n.id, r)
  {
    PickMember(dag.nodes, Settled(dag, r + 1) - Settled(dag, r), n);
    hide Settled;
    if n in dag.nodes {
      SettledPaths(dag, r, n.id);
      SettledPaths(dag, r + 1, n.id);
    }
  }

  lemma DepthUnique(es: seq<Edge>, id: Id, d: nat, d': nat)
    requires Depth(es, id, d) && Depth(es, id, d')
    ensures d == d'
  {
  }

  /** The ordering goes by longest-path depth, with ties in presentation order; every
      node in it has a depth. */
  lemma OrderedByDepth(dag: Dag, i: nat, j: nat) returns (di: nat, dj: nat)
    requires EndsOnCanvas(dag) && i < j < |Order(dag)|
    ensures Depth(dag.edges, Order(dag)[i].id, di) && Depth(dag.edges, Order(dag)[j].id, dj)
    ensures di < dj || (di == dj && Before(dag.nodes, Order(dag)[i], Order(dag)[j]))
  {
    hide Layer, Settled, Depth, Before, Pick;
    var ati, atj;
    di, ati := RoundOf(dag, |dag.nodes|, i);
    dj, atj := RoundOf(dag, |dag.nodes|, j);
    LayerDepth(dag, di, Order(dag)[i]);
    LayerDepth(dag, dj, Order(dag)[j]);
    if dj < di {
      LayersGrow(dag, dj, di);
    }
    if di == dj {
      SameLayer(dag, di, ati, atj);
    }
  }

  lemma SameLayer(dag: Dag, r: nat, i: nat, j: nat)
    requires i < j < |Layer(dag, r)|
    ensures Before(dag.nodes, Layer(dag, r)[i], Layer(dag, r)[j])
  {
    PickOrder(dag.nodes, Settled(dag, r + 1) - Settled(dag, r), i, j);
  }

  /** Each node at most once. */
  lemma OrderNoDuplicates(dag: Dag, i: nat, j: nat)
    requires EndsOnCanvas(dag) && UniqueIds(dag.nodes) && i < j < |Order(dag)|
    ensures Order(dag)[i].id != Order(dag)[j].id
  {
    hide Order, Depth;
    var di, dj := OrderedByDepth(dag, i, j);
    if di < dj {
      if Order(dag)[i].id == Order(dag)[j].id {
        DepthUnique(dag.edges, Order(dag)[i].id, di, dj);
      }
    } else {
      BeforeDistinct(dag.nodes, Order(dag)[i], Order(dag)[j]);
    }
  }

  lemma BeforeDistinct(nodes: seq<Node>, x: Node, y: Node)
    requires UniqueIds(nodes) && Before(nodes, x, y)
    ensures x.id != y.id
  {
    var a, b :| 0 <= a < b < |nodes| && nodes[a] == x && nodes[b] == y;
    assert nodes[a].id != nodes[b].id;
  }

  /** Membership: exactly the canvas nodes that settle. */
  lemma {:induction false} LayersMember(dag: Dag, k: nat, n: Node)
    ensures n in Layers(dag, k) <==> n in dag.nodes && n.id in Settled(dag, k)
  {
    hide Settled;
    if k == 0 {
      NoneSettled(dag);
    } else {
      LayersMember(dag, k - 1, n);
      SettledMono(dag, k - 1);
      PickMember(dag.nodes, Settled(dag, k) - Settled(dag, k - 1), n);
      assert n in Layers(dag, k) <==> n in Layers(dag, k - 1) || n in Layer(dag, k - 1);
    }
  }

  /** Sources come first. */
  lemma SourcesFirst(dag: Dag, e: Edge, j: nat) returns (i: nat)
    requires EndsOnCanvas(dag) && UniqueIds(dag.nodes) && e in dag.edges
    requires j < |Order(dag)| && Order(dag)[j].id == e.to.node
    ensures i < j && Order(dag)[i].id == e.from.node
  {
    var k := |dag.nodes|;
    var m :| m in dag.nodes && m.id == e.from.node;
    LayersMember(dag, k, Order(dag)[j]);
    SourceSettles(dag, k, e);
    LayersMember(dag, k, m);
    i :| 0 <= i < |Order(dag)| && Order(dag)[i] == m;
    SourceNotLater(dag, e, i, j);
  }

  lemma SourceSettles(dag: Dag, k: nat, e: Edge)
    requires EndsOnCanvas(dag) && e in dag.edges && e.to.node in Settled(dag, k)
    ensures e.from.node in Settled(dag, k)
  {
    hide Settled;
    NoneSettled(dag);
    SettledNode(dag, k - 1, e.to.node);
    assert Linked(dag.edges, e.from.node, e.to.node);
    SettledMono(dag, k - 1);
  }

  lemma SourceNotLater(dag: Dag, e: Edge, i: nat, j: nat)
    requires EndsOnCanvas(dag) && e in dag.edges && i < |Order(dag)| && j < |Order(dag)|
    requires Order(dag)[i].id == e.from.node && Order(dag)[j].id == e.to.node
    ensures i < j
  {
    if j < i {
      var dj, di := OrderedByDepth(dag, j, i);
      DeeperTarget(dag.edges, e, di, dj);
    } else if i == j {
      var r, at := RoundOf(dag, |dag.nodes|, i);
      LayerDepth(dag, r, Order(dag)[i]);
      DeeperTarget(dag.edges, e, r, r);
    }
  }

  lemma DeeperTarget(es: seq<Edge>, e: Edge, d: nat, d': nat)
    requires e in es && Depth(es, e.from.node, d) && Depth(es, e.to.node, d')
    ensures d < d'
  {
    var p :| PathTo(es, p, e.from.node) && |p| == d + 1;
    assert Linked(es, e.from.node, e.to.node);
    assert PathTo(es, p + [e.to.node], e.to.node);
  }

  // ----- What is omitted -----

  lemma {:induction false} Pigeonhole(p: seq<Id>, s: set<Id>) returns (i: nat, j: nat)
    requires |p| > |s| && forall x :: x in p ==> x in s
    ensures i < j < |p| && p[i] == p[j]
  {
    var last := p[|p| - 1];
    var front := p[..|p| - 1];
    if last in front {
      i :| 0 <= i < |front| && front[i] == last;
      j := |p| - 1;
    } else {
      assert |s - {last}| == |s| - 1;
      i, j := Pigeonhole(front, s - {last});
    }
  }

  /** A path with more nodes than the canvas goes round a cycle. */
  lemma LongPathCycles(dag: Dag, p: seq<Id>) returns (c: Id)
    requires EndsOnCanvas(dag) && IsPath(dag.edges, p) && |p| > |Ids(dag)|
    requires p[|p| - 1] in Ids(dag)
    ensures OnCycle(dag.edges, c) && Reach(dag.edges, c, p[|p| - 1])
  {
    forall i | 0 <= i < |p|
      ensures p[i] in Ids(dag)
    {
      if i < |p| - 1 {
        LinkedOnCanvas(dag, p[i], p[i + 1]);
      }
    }
    var i, j := Pigeonhole(p, Ids(dag));
    c := p[i];
    var q := p[i..j + 1];
    assert IsPath(dag.edges, q) && |q| > 1 && q[0] == c && q[|q| - 1] == c;
    var r := p[i..];
    assert IsPath(dag.edges, r) && r[0] == c && r[|r| - 1] == p[|p| - 1];
  }

  /** Downstream of a cycle there are paths of any length. */
  lemma {:induction false} CyclePumps(es: seq<Edge>, c: Id, k: nat) returns (p: seq<Id>)
    requires OnCycle(es, c)
    ensures PathTo(es, p, c) && |p| > k
  {
    if k == 0 {
      p := [c];
    } else {
      var q := CyclePumps(es, c, k - 1);
      var w :| IsPath(es, w) && |w| > 1 && w[0] == c && w[|w| - 1] == c;
      p := q + w[1..];
      forall i | 0 <= i < |p| - 1
        ensures Linked(es, p[i], p[i + 1])
      {
        if i < |q| - 1 {
          assert p[i] == q[i] && p[i + 1] == q[i + 1];
        } else {
          assert p[i] == w[i - (|q| - 1)] && p[i + 1] == w[i - (|q| - 1) + 1];
        }
      }
    }
  }

  lemma {:induction false} SettledUpstream(dag: Dag, k: nat, p: seq<Id>)
    requires EndsOnCanvas(dag) && IsPath(dag.edges, p) && p[|p| - 1] in Settled(dag, k)
    ensures p[0] in Settled(dag, k)
    decreases |p|
  {
    hide Settled;
    if |p| > 1 {
      var q := p[..|p| - 1];
      assert Linked(dag.edges, p[|p| - 2], p[|p| - 1]);
      var e :| e in dag.edges && e.from.node == p[|p| - 2] && e.to.node == p[|p| - 1];
      SourceSettles(dag, k, e);
      SettledUpstream(dag, k, q);
    }
  }

  /** A node is left out exactly when it lies on a cycle or downstream of one. */
  lemma OmittedExactly(dag: Dag, n: Node)
    requires EndsOnCanvas(dag) && n in dag.nodes
    ensures n in Order(dag) <==> !exists c :: OnCycle(dag.edges, c) && Reach(dag.edges, c, n.id)
  {
    hide Settled, Depth, OnCycle, Layers;
    var k := |dag.nodes|;
    IdsBound(dag);
    LayersMember(dag, k, n);
    SettledPaths(dag, k, n.id);
    if n !in Order(dag) {
      var p :| PathTo(dag.edges, p, n.id) && |p| > k;
      var c := LongPathCycles(dag, p);
    }
    forall c | OnCycle(dag.edges, c) && Reach(dag.edges, c, n.id)
      ensures n !in Order(dag)
    {
      if n.id in Settled(dag, k) {
        var p :| IsPath(dag.edges, p) && p[0] == c && p[|p| - 1] == n.id;
        SettledUpstream(dag, k, p);
        SettledMono(dag, k);
        var q := CyclePumps(dag.edges, c, k);
        SettledInCanvas(dag, k, c);
        SettledPaths(dag, k, c);
        assert false;
      }
    }
  }

  lemma SettledInCanvas(dag: Dag, k: nat, c: Id)
    requires c in Settled(dag, k)
    ensures c in Ids(dag)
  {
    SettledMono(dag, k);
  }

  lemma IdsBound(dag: Dag)
    ensures |Ids(dag)| <= |dag.nodes|
  {
    NodesBound(dag.nodes);
  }

  lemma {:induction false} NodesBound(nodes: seq<Node>)
    ensures |set n | n in nodes :: n.id| <= |nodes|
  {
    if nodes != [] {
      var rest := set n | n in nodes[1..] :: n.id;
      assert (set n | n in nodes :: n.id) == {nodes[0].id} + rest;
      NodesBound(nodes[1..]);
    }
  }

  /** On an acyclic graph nothing is left out. */
  lemma AcyclicOrdersAll(dag: Dag, n: Node)
    requires EndsOnCanvas(dag) && Acyclic(dag.edges) && n in dag.nodes
    ensures n in Order(dag)
  {
    OmittedExactly(dag, n);
    AcyclicNoClosedWalk(dag.edges);
  }

  // ----- The panel's columns -----

  /** The depths fed into a node so far bound its own from below. */
  ghost predicate FedDepth(es: seq<Edge>, depth: map<Id, nat>, id: Id, i: nat, d: nat)
    requires i <= |es|
  {
    (forall j :: 0 <= j < i && es[j].to.node == id ==>
      es[j].from.node in depth && depth[es[j].from.node] + 1 <= d) &&
    (d > 0 ==>
      exists j :: 0 <= j < i && es[j].to.node == id && es[j].from.node in depth && depth[es[j].from.node] + 1 == d)
  }

  ghost predicate DepthsRight(es: seq<Edge>, depth: map<Id, nat>) {
    forall id :: id in depth ==> Depth(es, id, depth[id])
  }

  lemma ExtendTo(es: seq<Edge>, p: seq<Id>, e: Edge)
    requires e in es && PathTo(es, p, e.from.node)
    ensures PathTo(es, p + [e.to.node], e.to.node)
  {
    assert Linked(es, e.from.node, e.to.node);
  }

  lemma LastEdge(es: seq<Edge>, p: seq<Id>, id: Id) returns (j: nat)
    requires PathTo(es, p, id) && |p| > 1
    ensures j < |es| && es[j].to.node == id && PathTo(es, p[..|p| - 1], es[j].from.node)
  {
    assert Linked(es, p[|p| - 2], p[|p| - 1]);
    var e :| e in es && e.from.node == p[|p| - 2] && e.to.node == id;
    j :| 0 <= j < |es| && es[j] == e;
  }

  /** A node is one deeper than the deepest node feeding it. */
  lemma DepthFromSources(es: seq<Edge>, depth: map<Id, nat>, id: Id, d: nat)
    requires DepthsRight(es, depth) && FedDepth(es, depth, id, |es|, d)
    ensures Depth(es, id, d)
  {
    var long: seq<Id>;
    if d == 0 {
      long := [id];
    } else {
      var j :| 0 <= j < |es| && es[j].to.node == id && es[j].from.node in depth && depth[es[j].from.node] + 1 == d;
      var p :| PathTo(es, p, es[j].from.node) && |p| == d;
      ExtendTo(es, p, es[j]);
      long := p + [id];
    }
    assert PathTo(es, long, id) && |long| == d + 1;
    forall p | PathTo(es, p, id)
      ensures |p| <= d + 1
    {
      NoLonger(es, depth, id, d, p);
    }
  }

  lemma NoLonger(es: seq<Edge>, depth: map<Id, nat>, id: Id, d: nat, p: seq<Id>)
    requires DepthsRight(es, depth) && FedDepth(es, depth, id, |es|, d) && PathTo(es, p, id)
    ensures |p| <= d + 1
  {
    if |p| > 1 {
      var j := LastEdge(es, p, id);
      hide PathTo;
      assert Depth(es, es[j].from.node, depth[es[j].from.node]);
    }
  }

  /** The layered layout: each node's column, computed along the ordering. */
  method Columns(dag: Dag) returns (depth: map<Id, nat>)
    requires WellFormed(dag)
    ensures DepthsRight(dag.edges, depth)
    ensures forall n :: n in Order(dag) ==> n.id in depth
  {
    hide Order, Depth, WellFormed, EndsOnCanvas, Ids;
    WellFormedEnds(dag);
    var es := dag.edges;
    var order := Topological(dag);
    depth := map[];
    for i := 0 to |order|
      invariant DepthsRight(es, depth)
      invariant forall j :: 0 <= j < i ==> order[j].id in depth
    {
      var id := order[i].id;
      var d: nat := 0;
      for j := 0 to |es|
        invariant FedDepth(es, depth, id, j, d)
      {
        if es[j].to.node == id {
          ghost var at := SourcesFirst(dag, es[j], i);
          var from := depth[es[j].from.node];
          if from + 1 > d {
            d := from + 1;
          }
        }
      }
      DepthFromSources(es, depth, id, d);
      depth := depth[id := d];
    }
  }
}
