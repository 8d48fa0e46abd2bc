/** The panel's structural edits, on edge lists: inserting a step on an edge, removing a
    step, joining two steps, and starting a branch; and what each keeps. */
module Edits {
  import opened Graph
  import opened Paths

  // ----- The edits -----

  /** The edges other than `e`. */
  function Without(es: seq<Edge>, e: Edge): seq<Edge> {
    if es == [] then [] else if es[0] == e then Without(es[1..], e) else [es[0]] + Without(es[1..], e)
  }

  function Incoming(es: seq<Edge>, id: Id): seq<Edge> {
    if es == [] then [] else if es[0].to.node == id then [es[0]] + Incoming(es[1..], id) else Incoming(es[1..], id)
  }

  function Outgoing(es: seq<Edge>, id: Id): seq<Edge> {
    if es == [] then [] else if es[0].from.node == id then [es[0]] + Outgoing(es[1..], id) else Outgoing(es[1..], id)
  }

  /** The edges that do not leave `id`. */
  function NotFrom(es: seq<Edge>, id: Id): seq<Edge> {
    if es == [] then [] else if es[0].from.node == id then NotFrom(es[1..], id) else [es[0]] + NotFrom(es[1..], id)
  }

  /** The edges that do not touch `id`. */
  function Apart(es: seq<Edge>, id: Id): seq<Edge> {
    if es == [] then []
    else if es[0].from.node == id || es[0].to.node == id then Apart(es[1..], id)
    else [es[0]] + Apart(es[1..], id)
  }

  function IntoStep(e: Edge, id: Id, port: Port): Edge {
    Edge(e.from, PortRef(id, port))
  }

  function OutOfStep(e: Edge, id: Id): Edge {
    Edge(PortRef(id, Out), e.to)
  }

  /** A step spliced onto `e`: the source feeds the step, the step feeds the target. */
  function InsertEdges(es: seq<Edge>, e: Edge, id: Id, port: Port): seq<Edge> {
    Without(es, e) + [IntoStep(e, id, port), OutOfStep(e, id)]
  }

  /** A step removed: with one input and one output its neighbours join up. */
  function RemoveEdges(es: seq<Edge>, id: Id): seq<Edge> {
    var into, out := Incoming(es, id), Outgoing(es, id);
    Apart(es, id) + if |into| == 1 && |out| == 1 then [Edge(into[0].from, out[0].to)] else []
  }

  /** The edges, each now leaving `id`. */
  function From(es: seq<Edge>, id: Id): seq<Edge> {
    seq(|es|, i requires 0 <= i < |es| => OutOfStep(es[i], id))
  }

  /** Two steps joined: both feed the join, which takes over what the first one fed. */
  function JoinEdges(es: seq<Edge>, a: Id, b: Id, id: Id, first: Port, second: Port): seq<Edge> {
    NotFrom(es, a)
    + [Edge(PortRef(a, Out), PortRef(id, first)), Edge(PortRef(b, Out), PortRef(id, second))]
    + From(Outgoing(es, a), id)
  }

  /** A branch started into a free port: a load feeding an NDVI feeding the port. */
  function BranchEdges(es: seq<Edge>, load: Id, ndvi: Id, id: Id, port: Port): seq<Edge> {
    es + [Edge(PortRef(load, Out), PortRef(ndvi, Data)), Edge(PortRef(ndvi, Out), PortRef(id, port))]
  }

  /** No edge touches the id. */
  predicate Unwired(es: seq<Edge>, id: Id) {
    forall e :: e in es ==> e.from.node != id && e.to.node != id
  }

  // ----- Members -----

  lemma {:induction false} WithoutMember(es: seq<Edge>, e: Edge, f: Edge)
    ensures f in Without(es, e) <==> f in es && f != e
  {
    if es != [] {
      WithoutMember(es[1..], e, f);
    }
  }

  lemma {:induction false} TouchMember(es: seq<Edge>, id: Id, f: Edge)
    ensures f in Incoming(es, id) <==> f in es && f.to.node == id
    ensures f in Outgoing(es, id) <==> f in es && f.from.node == id
    ensures f in NotFrom(es, id) <==> f in es && f.from.node != id
    ensures f in Apart(es, id) <==> f in es && f.from.node != id && f.to.node != id
  {
    if es != [] {
      TouchMember(es[1..], id, f);
    }
  }

  lemma InsertMembers(es: seq<Edge>, e: Edge, id: Id, port: Port)
    ensures forall f :: f in InsertEdges(es, e, id, port) <==>
      (f in es && f != e) || f == IntoStep(e, id, port) || f == OutOfStep(e, id)
  {
    forall f {
      WithoutMember(es, e, f);
    }
  }

  /** An edge of the joined graph: an old one not leaving `a`, one of the join's two
      inputs, or an old output of `a` moved to the join. */
  predicate JoinMember(es: seq<Edge>, a: Id, b: Id, id: Id, first: Port, second: Port, f: Edge) {
    (f in es && f.from.node != a) ||
    f == Edge(PortRef(a, Out), PortRef(id, first)) || f == Edge(PortRef(b, Out), PortRef(id, second)) ||
    exists g :: g in es && g.from.node == a && f == OutOfStep(g, id)
  }

  lemma JoinMembers(es: seq<Edge>, a: Id, b: Id, id: Id, first: Port, second: Port)
    ensures forall f :: f in JoinEdges(es, a, b, id, first, second) <==> JoinMember(es, a, b, id, first, second, f)
  {
    forall g
      ensures g in Outgoing(es, a) <==> g in es && g.from.node == a
      ensures g in NotFrom(es, a) <==> g in es && g.from.node != a
    {
      TouchMember(es, a, g);
    }
    forall f
      ensures f in From(Outgoing(es, a), id) <==> exists g :: g in es && g.from.node == a && f == OutOfStep(g, id)
    {
      FromMember(Outgoing(es, a), id, f);
    }
  }

  lemma FromMember(es: seq<Edge>, id: Id, f: Edge)
    ensures f in From(es, id) <==> exists g :: g in es && f == OutOfStep(g, id)
  {
    forall g | g in es && f == OutOfStep(g, id)
      ensures f in From(es, id)
    {
      var i :| 0 <= i < |es| && es[i] == g;
      assert From(es, id)[i] == f;
    }
  }

  // ----- Insertion, then removal -----

  lemma {:induction false} NoIncoming(es: seq<Edge>, id: Id)
    requires Unwired(es, id)
    ensures Incoming(es, id) == []
  {
    if es != [] {
      NoIncoming(es[1..], id);
    }
  }

  lemma {:induction false} NoOutgoing(es: seq<Edge>, id: Id)
    requires Unwired(es, id)
    ensures Outgoing(es, id) == []
  {
    if es != [] {
      NoOutgoing(es[1..], id);
    }
  }

  lemma {:induction false} AllApart(es: seq<Edge>, id: Id)
    requires Unwired(es, id)
    ensures Apart(es, id) == es
  {
    if es != [] {
      AllApart(es[1..], id);
    }
  }

  lemma {:induction false} IncomingAppend(es: seq<Edge>, fs: seq<Edge>, id: Id)
    ensures Incoming(es + fs, id) == Incoming(es, id) + Incoming(fs, id)
  {
    if es == [] {
      assert es + fs == fs;
    } else {
      assert (es + fs)[1..] == es[1..] + fs;
      IncomingAppend(es[1..], fs, id);
    }
  }

  lemma {:induction false} OutgoingAppend(es: seq<Edge>, fs: seq<Edge>, id: Id)
    ensures Outgoing(es + fs, id) == Outgoing(es, id) + Outgoing(fs, id)
  {
    if es == [] {
      assert es + fs == fs;
    } else {
      assert (es + fs)[1..] == es[1..] + fs;
      OutgoingAppend(es[1..], fs, id);
    }
  }

  lemma {:induction false} ApartAppend(es: seq<Edge>, fs: seq<Edge>, id: Id)
    ensures Apart(es + fs, id) == Apart(es, id) + Apart(fs, id)
  {
    if es == [] {
      assert es + fs == fs;
    } else {
      assert (es + fs)[1..] == es[1..] + fs;
      ApartAppend(es[1..], fs, id);
    }
  }

  /** Removing the step just inserted restores the edges: all the others in place, and
      the edge inserted on back again. */
  lemma InsertThenRemove(es: seq<Edge>, e: Edge, id: Id, port: Port)
    requires e in es && Unwired(es, id)
    ensures RemoveEdges(InsertEdges(es, e, id, port), id) == Without(es, e) + [e]
    ensures forall f :: f in RemoveEdges(InsertEdges(es, e, id, port), id) <==> f in es
  {
    var rest, added := Without(es, e), [IntoStep(e, id, port), OutOfStep(e, id)];
    forall f {
      WithoutMember(es, e, f);
    }
    NoIncoming(rest, id);
    NoOutgoing(rest, id);
    AllApart(rest, id);
    IncomingAppend(rest, added, id);
    OutgoingAppend(rest, added, id);
    ApartAppend(rest, added, id);
    TouchTwo(IntoStep(e, id, port), OutOfStep(e, id), id);
  }

  lemma TouchTwo(f: Edge, g: Edge, id: Id)
    requires f.to.node == id && f.from.node != id && g.from.node == id && g.to.node != id
    ensures Incoming([f, g], id) == [f] && Outgoing([f, g], id) == [g] && Apart([f, g], id) == []
  {
    var none: seq<Edge>, one, two := [], [g], [f, g];
    assert Incoming(none, id) == [] && Outgoing(none, id) == [] && Apart(none, id) == [];
    assert one[1..] == none && two[1..] == one;
    assert Incoming(one, id) == [] && Outgoing(one, id) == [g] && Apart(one, id) == [];
    assert Incoming(two, id) == [f] && Outgoing(two, id) == [g] && Apart(two, id) == [];
  }

  // ----- What insertion keeps -----

  lemma {:induction false} InsertedPath(es: seq<Edge>, e: Edge, id: Id, port: Port, p: seq<Id>)
    requires e in es && Unwired(es, id) && IsPath(InsertEdges(es, e, id, port), p) && p[|p| - 1] != id
    ensures Reach(es, if p[0] == id then e.to.node else p[0], p[|p| - 1])
  {
    hide InsertEdges, Reach;
    var y := p[|p| - 1];
    if |p| == 1 {
      ReachRefl(es, y);
    } else {
      var q := p[1..];
      assert Linked(InsertEdges(es, e, id, port), p[0], p[1]);
      InsertedPath(es, e, id, port, q);
      InsertMembers(es, e, id, port);
      var f :| f in InsertEdges(es, e, id, port) && f.from.node == p[0] && f.to.node == p[1];
      if f in es {
        ReachLink(es, p[0], p[1]);
        ReachTrans(es, p[0], p[1], y);
      } else if p[0] != id {
        ReachLink(es, e.from.node, e.to.node);
        ReachTrans(es, e.from.node, e.to.node, y);
      }
    }
  }

  /** Insertion neither adds nor loses a path between the other steps. */
  lemma InsertKeepsReach(es: seq<Edge>, e: Edge, id: Id, port: Port, x: Id, y: Id)
    requires e in es && Unwired(es, id) && x != id && y != id
    ensures Reach(InsertEdges(es, e, id, port), x, y) <==> Reach(es, x, y)
  {
    hide InsertEdges;
    var ins := InsertEdges(es, e, id, port);
    InsertMembers(es, e, id, port);
    if Reach(ins, x, y) {
      var p :| IsPath(ins, p) && p[0] == x && p[|p| - 1] == y;
      InsertedPath(es, e, id, port, p);
    }
    if Reach(es, x, y) {
      forall f | f in es
        ensures Reach(ins, f.from.node, f.to.node)
      {
        if f == e {
          ReachTwo(ins, IntoStep(e, id, port), OutOfStep(e, id));
        } else {
          ReachLink(ins, f.from.node, f.to.node);
        }
      }
      ReachSimulated(es, ins, x, y);
    }
  }

  /** The inserted step lies exactly between the edge's ends. */
  lemma InsertedStepReach(es: seq<Edge>, e: Edge, id: Id, port: Port, x: Id)
    requires e in es && Unwired(es, id) && x != id
    ensures Reach(InsertEdges(es, e, id, port), x, id) <==> Reach(es, x, e.from.node)
    ensures Reach(InsertEdges(es, e, id, port), id, x) <==> Reach(es, e.to.node, x)
  {
    hide InsertEdges;
    var ins := InsertEdges(es, e, id, port);
    InsertMembers(es, e, id, port);
    InsertKeepsReach(es, e, id, port, x, e.from.node);
    InsertKeepsReach(es, e, id, port, e.to.node, x);
    if Reach(ins, x, id) {
      var c := ReachLast(ins, x, id);
    }
    if Reach(ins, x, e.from.node) {
      ReachThenLink(ins, x, IntoStep(e, id, port));
    }
    if Reach(ins, id, x) {
      var c := ReachFirst(ins, id, x);
    }
    if Reach(ins, e.to.node, x) {
      ReachLink(ins, id, e.to.node);
      ReachTrans(ins, id, e.to.node, x);
    }
  }

  lemma InsertKeepsAcyclic(es: seq<Edge>, e: Edge, id: Id, port: Port)
    requires e in es && Unwired(es, id)
    ensures Acyclic(InsertEdges(es, e, id, port)) <==> Acyclic(es)
  {
    hide InsertEdges, Reach;
    var ins := InsertEdges(es, e, id, port);
    InsertMembers(es, e, id, port);
    InsertedStepReach(es, e, id, port, e.from.node);
    InsertedStepReach(es, e, id, port, e.to.node);
    forall f | f in es
      ensures Reach(ins, f.to.node, f.from.node) <==> Reach(es, f.to.node, f.from.node)
    {
      InsertKeepsReach(es, e, id, port, f.to.node, f.from.node);
    }
    assert IntoStep(e, id, port) in ins && OutOfStep(e, id) in ins;
  }

  lemma {:induction false} WithoutSingleFed(es: seq<Edge>, e: Edge)
    requires SingleFed(es)
    ensures SingleFed(Without(es, e))
    ensures e in es ==> forall f :: f in Without(es, e) ==> f.to != e.to
  {
    if es != [] {
      WithoutSingleFed(es[1..], e);
      forall f | f in es[1..]
        ensures f.to != es[0].to
      {
        var j :| 0 <= j < |es[1..]| && es[1..][j] == f;
        assert es[j + 1] == f;
      }
      forall f | f in Without(es[1..], e)
        ensures f in es[1..]
      {
        WithoutMember(es[1..], e, f);
      }
    }
  }

  lemma InsertKeepsSingleFed(es: seq<Edge>, e: Edge, id: Id, port: Port)
    requires e in es && Unwired(es, id) && SingleFed(es)
    ensures SingleFed(InsertEdges(es, e, id, port))
  {
    WithoutSingleFed(es, e);
    forall f | f in Without(es, e)
      ensures f.to.node != id
    {
      WithoutMember(es, e, f);
    }
    assert OutOfStep(e, id).to.node != id;
  }

  // ----- What removal keeps -----

  ghost predicate SameEdges(es: seq<Edge>, es': seq<Edge>) {
    forall f :: f in es <==> f in es'
  }

  lemma SameReach(es: seq<Edge>, es': seq<Edge>)
    requires SameEdges(es, es')
    ensures forall x, y :: Reach(es, x, y) <==> Reach(es', x, y)
    ensures Acyclic(es) <==> Acyclic(es')
  {
    assert forall x, y :: Linked(es, x, y) <==> Linked(es', x, y);
    forall x, y
      ensures Reach(es, x, y) <==> Reach(es', x, y)
    {
      if Reach(es, x, y) { ReachMono(es, es', x, y); }
      if Reach(es', x, y) { ReachMono(es', es, x, y); }
    }
  }

  /** The step has exactly one input and one output. */
  predicate OnPath(es: seq<Edge>, id: Id) {
    |Incoming(es, id)| == 1 && |Outgoing(es, id)| == 1
  }

  /** The step has one input and one output, and they are the same edge. */
  predicate SelfFed(es: seq<Edge>, id: Id) {
    OnPath(es, id) && Incoming(es, id)[0].from.node == id
  }

  /** The edge that takes the place of a removed one-in one-out step. */
  function Bridge(es: seq<Edge>, id: Id): Edge
    requires OnPath(es, id)
  {
    Edge(Incoming(es, id)[0].from, Outgoing(es, id)[0].to)
  }

  lemma OnPathEdges(es: seq<Edge>, id: Id)
    requires OnPath(es, id)
    ensures forall f :: f in es && f.to.node == id <==> f == Incoming(es, id)[0]
    ensures forall f :: f in es && f.from.node == id <==> f == Outgoing(es, id)[0]
  {
    forall f
      ensures f in es && f.to.node == id <==> f == Incoming(es, id)[0]
      ensures f in es && f.from.node == id <==> f == Outgoing(es, id)[0]
    {
      TouchMember(es, id, f);
      var into, out := Incoming(es, id), Outgoing(es, id);
      assert into == [into[0]] && out == [out[0]];
    }
  }

  lemma {:induction false} SingleFedByMember(es: seq<Edge>, f: Edge, g: Edge)
    requires SingleFed(es) && f in es && g in es && f.to == g.to
    ensures f == g
  {
    var i :| 0 <= i < |es| && es[i] == f;
    var j :| 0 <= j < |es| && es[j] == g;
  }

  /** Removing a one-in one-out step undoes an insertion: inserting it back on the bridge
      gives the same edges. */
  lemma RemoveIsUninsert(es: seq<Edge>, id: Id)
    requires OnPath(es, id) && SingleFed(es)
    requires Incoming(es, id)[0].from.node != id && Outgoing(es, id)[0].from.port == Out
    ensures Bridge(es, id) in RemoveEdges(es, id) && Unwired(RemoveEdges(es, id), id)
    ensures SameEdges(es, InsertEdges(RemoveEdges(es, id), Bridge(es, id), id, Incoming(es, id)[0].to.port))
  {
    hide SingleFed;
    var into, out := Incoming(es, id)[0], Outgoing(es, id)[0];
    var rem, bridge := RemoveEdges(es, id), Bridge(es, id);
    OnPathEdges(es, id);
    assert into in es && out in es;
    RemoveMembers(es, id);
    if bridge in es {
      SingleFedByMember(es, bridge, out);
    }
    InsertMembers(rem, bridge, id, into.to.port);
    assert IntoStep(bridge, id, into.to.port) == into && OutOfStep(bridge, id) == out;
  }

  lemma RemoveMembers(es: seq<Edge>, id: Id)
    ensures forall f :: f in RemoveEdges(es, id) <==>
      (f in es && f.from.node != id && f.to.node != id) || (OnPath(es, id) && f == Bridge(es, id))
  {
    forall f
      ensures f in Apart(es, id) <==> f in es && f.from.node != id && f.to.node != id
    {
      TouchMember(es, id, f);
    }
  }

  /** Removing a one-in one-out step keeps every path between the other steps and adds
      none, and keeps the graph acyclic exactly when it was. */
  lemma RemoveKeepsReach(es: seq<Edge>, id: Id, x: Id, y: Id)
    requires OnPath(es, id) && SingleFed(es) && x != id && y != id
    requires Incoming(es, id)[0].from.node != id && Outgoing(es, id)[0].from.port == Out
    ensures Reach(RemoveEdges(es, id), x, y) <==> Reach(es, x, y)
    ensures Acyclic(RemoveEdges(es, id)) <==> Acyclic(es)
  {
    hide SingleFed, Reach, RemoveEdges, InsertEdges, Acyclic;
    var port := Incoming(es, id)[0].to.port;
    RemoveIsUninsert(es, id);
    var rem, bridge := RemoveEdges(es, id), Bridge(es, id);
    InsertKeepsReach(rem, bridge, id, port, x, y);
    InsertKeepsAcyclic(rem, bridge, id, port);
    SameReach(es, InsertEdges(rem, bridge, id, port));
  }

  lemma {:induction false} ApartSingleFed(es: seq<Edge>, id: Id)
    requires SingleFed(es)
    ensures SingleFed(Apart(es, id))
  {
    if es != [] {
      ApartSingleFed(es[1..], id);
      forall f | f in Apart(es[1..], id)
        ensures f.to != es[0].to
      {
        TouchMember(es[1..], id, f);
        var j :| 0 <= j < |es[1..]| && es[1..][j] == f;
        assert es[j + 1] == f;
      }
    }
  }

  /** Any removal keeps each port fed at most once. */
  lemma RemoveKeepsSingleFed(es: seq<Edge>, id: Id)
    requires SingleFed(es)
    ensures SingleFed(RemoveEdges(es, id))
  {
    ApartSingleFed(es, id);
    if OnPath(es, id) {
      var out := Outgoing(es, id)[0];
      OnPathEdges(es, id);
      forall f | f in Apart(es, id)
        ensures f.to != out.to
      {
        TouchMember(es, id, f);
        if f.to == out.to { SingleFedByMember(es, f, out); }
      }
      assert RemoveEdges(es, id) == Apart(es, id) + [Bridge(es, id)];
    } else {
      assert RemoveEdges(es, id) == Apart(es, id);
    }
  }

  /** Any other removal only takes paths away. */
  lemma RemoveOffPath(es: seq<Edge>, id: Id, x: Id, y: Id)
    requires !OnPath(es, id)
    ensures Reach(RemoveEdges(es, id), x, y) ==> Reach(es, x, y)
    ensures Acyclic(es) ==> Acyclic(RemoveEdges(es, id))
  {
    hide OnPath, RemoveEdges, Reach;
    var rem := RemoveEdges(es, id);
    RemoveMembers(es, id);
    assert forall a, b :: Linked(rem, a, b) ==> Linked(es, a, b);
    forall a, b
      ensures Reach(rem, a, b) ==> Reach(es, a, b)
    {
      if Reach(rem, a, b) { ReachMono(rem, es, a, b); }
    }
  }

  // ----- Joining two steps -----

  /** Something `a` fed reaches `y`. */
  ghost predicate FedReaches(es: seq<Edge>, a: Id, y: Id) {
    exists g :: g in es && g.from.node == a && Reach(es, g.to.node, y)
  }

  lemma FedReachesIsReach(es: seq<Edge>, a: Id, y: Id)
    requires FedReaches(es, a, y)
    ensures Reach(es, a, y)
  {
    var g :| g in es && g.from.node == a && Reach(es, g.to.node, y);
    ReachLink(es, a, g.to.node);
    ReachTrans(es, a, g.to.node, y);
  }

  /** What the joined graph reaches: what was reached, and what `a` fed from what
      reached `b`. */
  ghost predicate JoinedReach(es: seq<Edge>, a: Id, b: Id, x: Id, y: Id) {
    Reach(es, x, y) || (Reach(es, x, b) && FedReaches(es, a, y))
  }

  lemma JoinedReachStep(es: seq<Edge>, a: Id, b: Id, f: Edge, y: Id)
    requires f in es && JoinedReach(es, a, b, f.to.node, y)
    ensures JoinedReach(es, a, b, f.from.node, y)
  {
    ReachLink(es, f.from.node, f.to.node);
    if Reach(es, f.to.node, y) {
      ReachTrans(es, f.from.node, f.to.node, y);
    } else {
      ReachTrans(es, f.from.node, f.to.node, b);
    }
  }

  lemma {:induction false} JoinedPath(es: seq<Edge>, a: Id, b: Id, id: Id, first: Port, second: Port, p: seq<Id>)
    requires Unwired(es, id) && a != id && b != id
    requires IsPath(JoinEdges(es, a, b, id, first, second), p) && p[|p| - 1] != id
    ensures if p[0] == id then FedReaches(es, a, p[|p| - 1]) else JoinedReach(es, a, b, p[0], p[|p| - 1])
  {
    hide JoinEdges, Reach;
    var joined, y := JoinEdges(es, a, b, id, first, second), p[|p| - 1];
    if |p| == 1 {
      ReachRefl(es, y);
    } else {
      assert Linked(joined, p[0], p[1]);
      JoinedPath(es, a, b, id, first, second, p[1..]);
      JoinMembers(es, a, b, id, first, second);
      var f :| f in joined && f.from.node == p[0] && f.to.node == p[1];
      if f in es {
        JoinedReachStep(es, a, b, f, y);
      } else if p[1] == id {
        if p[0] == a {
          FedReachesIsReach(es, a, y);
        } else {
          ReachRefl(es, b);
        }
      } else {
        var g :| g in es && g.from.node == a && f == OutOfStep(g, id);
        assert Reach(es, g.to.node, y) ==> FedReaches(es, a, y);
      }
    }
  }

  /** Exactly what joining makes reachable between old steps; in particular every old
      path survives. */
  lemma JoinReach(es: seq<Edge>, a: Id, b: Id, id: Id, first: Port, second: Port, x: Id, y: Id)
    requires Unwired(es, id) && a != id && b != id && x != id && y != id
    ensures Reach(JoinEdges(es, a, b, id, first, second), x, y) <==> JoinedReach(es, a, b, x, y)
  {
    hide JoinEdges;
    var joined := JoinEdges(es, a, b, id, first, second);
    JoinMembers(es, a, b, id, first, second);
    if Reach(joined, x, y) {
      var p :| IsPath(joined, p) && p[0] == x && p[|p| - 1] == y;
      JoinedPath(es, a, b, id, first, second, p);
    }
    OldPathsSurvive(es, a, b, id, first, second);
    if JoinedReach(es, a, b, x, y) && !Reach(es, x, y) {
      var g :| g in es && g.from.node == a && Reach(es, g.to.node, y);
      var into := Edge(PortRef(b, Out), PortRef(id, second));
      ReachTwo(joined, into, OutOfStep(g, id));
      ReachTrans(joined, x, b, g.to.node);
      ReachTrans(joined, x, g.to.node, y);
    }
  }

  lemma OldPathsSurvive(es: seq<Edge>, a: Id, b: Id, id: Id, first: Port, second: Port)
    ensures forall x, y :: Reach(es, x, y) ==> Reach(JoinEdges(es, a, b, id, first, second), x, y)
  {
    hide JoinEdges;
    var joined := JoinEdges(es, a, b, id, first, second);
    JoinMembers(es, a, b, id, first, second);
    forall f | f in es
      ensures Reach(joined, f.from.node, f.to.node)
    {
      if f.from.node == a {
        ReachTwo(joined, Edge(PortRef(a, Out), PortRef(id, first)), OutOfStep(f, id));
      } else {
        ReachLink(joined, f.from.node, f.to.node);
      }
    }
    forall x, y | Reach(es, x, y)
      ensures Reach(joined, x, y)
    {
      ReachSimulated(es, joined, x, y);
    }
  }

  /** From the join on, the joined graph leads where `a`'s consumers did. */
  lemma FromJoin(es: seq<Edge>, a: Id, b: Id, id: Id, first: Port, second: Port, y: Id)
    requires Unwired(es, id) && a != id && b != id && y != id
    ensures Reach(JoinEdges(es, a, b, id, first, second), id, y) <==> FedReaches(es, a, y)
  {
    hide JoinEdges;
    var joined := JoinEdges(es, a, b, id, first, second);
    JoinMembers(es, a, b, id, first, second);
    if Reach(joined, id, y) {
      var p :| IsPath(joined, p) && p[0] == id && p[|p| - 1] == y;
      JoinedPath(es, a, b, id, first, second, p);
    }
    if FedReaches(es, a, y) {
      var g :| g in es && g.from.node == a && Reach(es, g.to.node, y);
      OldPathsSurvive(es, a, b, id, first, second);
      var o := OutOfStep(g, id);
      assert o in joined && o.from.node == id && o.to.node == g.to.node;
      ReachLink(joined, id, g.to.node);
      ReachTrans(joined, id, g.to.node, y);
    }
  }

  /** Joining two distinct steps keeps an acyclic graph acyclic exactly when the first
      does not already lead to the second. */
  lemma JoinAcyclic(es: seq<Edge>, a: Id, b: Id, id: Id, first: Port, second: Port)
    requires Acyclic(es) && Unwired(es, id) && a != b && a != id && b != id
    ensures Acyclic(JoinEdges(es, a, b, id, first, second)) <==> !Reach(es, a, b)
  {
    if Reach(es, a, b) {
      JoinCloses(es, a, b, id, first, second);
    } else {
      JoinStaysOpen(es, a, b, id, first, second);
    }
  }

  lemma JoinCloses(es: seq<Edge>, a: Id, b: Id, id: Id, first: Port, second: Port)
    requires Unwired(es, id) && a != b && a != id && b != id && Reach(es, a, b)
    ensures !Acyclic(JoinEdges(es, a, b, id, first, second))
  {
    hide JoinEdges, Reach;
    var t := ReachFirst(es, a, b);
    FromJoin(es, a, b, id, first, second, b);
    JoinMembers(es, a, b, id, first, second);
    assert FedReaches(es, a, b);
    assert Edge(PortRef(b, Out), PortRef(id, second)) in JoinEdges(es, a, b, id, first, second);
  }

  /** Nothing downstream of `a` leads to `a` or to `b`. */
  lemma FedReachesNeither(es: seq<Edge>, a: Id, b: Id)
    requires Acyclic(es) && !Reach(es, a, b)
    ensures !FedReaches(es, a, a) && !FedReaches(es, a, b)
  {
    if FedReaches(es, a, b) {
      FedReachesIsReach(es, a, b);
    }
  }

  lemma JoinedLoopFree(es: seq<Edge>, a: Id, b: Id, f: Edge)
    requires Acyclic(es) && !Reach(es, a, b) && f in es
    ensures !JoinedReach(es, a, b, f.to.node, f.from.node)
  {
    if Reach(es, f.to.node, b) && FedReaches(es, a, f.from.node) {
      FedReachesIsReach(es, a, f.from.node);
      ReachThenLink(es, a, f);
      ReachTrans(es, a, f.to.node, b);
    }
  }

  lemma JoinStaysOpen(es: seq<Edge>, a: Id, b: Id, id: Id, first: Port, second: Port)
    requires Acyclic(es) && Unwired(es, id) && a != id && b != id && !Reach(es, a, b)
    ensures Acyclic(JoinEdges(es, a, b, id, first, second))
  {
    hide JoinEdges, Reach, FedReaches, JoinedReach;
    var joined := JoinEdges(es, a, b, id, first, second);
    JoinMembers(es, a, b, id, first, second);
    FedReachesNeither(es, a, b);
    FromJoin(es, a, b, id, first, second, a);
    FromJoin(es, a, b, id, first, second, b);
    forall f | f in joined
      ensures !Reach(joined, f.to.node, f.from.node)
    {
      if f in es {
        JoinReach(es, a, b, id, first, second, f.to.node, f.from.node);
        JoinedLoopFree(es, a, b, f);
      } else if f.to.node != id {
        var g :| g in es && g.from.node == a && f == OutOfStep(g, id);
        ConsumerMissesJoin(es, a, b, id, first, second, g);
      }
    }
  }

  lemma ConsumerMissesJoin(es: seq<Edge>, a: Id, b: Id, id: Id, first: Port, second: Port, g: Edge)
    requires Acyclic(es) && Unwired(es, id) && a != id && b != id && !Reach(es, a, b)
    requires g in es && g.from.node == a
    ensures !Reach(JoinEdges(es, a, b, id, first, second), g.to.node, id)
  {
    hide JoinEdges, FedReaches, JoinedReach;
    var joined := JoinEdges(es, a, b, id, first, second);
    if Reach(joined, g.to.node, id) {
      JoinMembers(es, a, b, id, first, second);
      var c := ReachLast(joined, g.to.node, id);
      assert c == a || c == b;
      var o := OutOfStep(g, id);
      assert o in joined && o.from.node == id && o.to.node == g.to.node;
      ReachLink(joined, o.from.node, o.to.node);
      ReachTrans(joined, id, g.to.node, c);
      FromJoin(es, a, b, id, first, second, c);
      FedReachesNeither(es, a, b);
    }
  }
}
