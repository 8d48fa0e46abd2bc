/** Paths along edges: the reference for `reaches`, and the acyclicity every edit keeps. */
module Paths {
  import opened Graph

  predicate Linked(es: seq<Edge>, a: Id, b: Id) {
    exists e :: e in es && e.from.node == a && e.to.node == b
  }

  /** A walk: consecutive nodes are joined by an edge. */
  predicate IsPath(es: seq<Edge>, p: seq<Id>) {
    |p| > 0 && forall i :: 0 <= i < |p| - 1 ==> Linked(es, p[i], p[i + 1])
  }

  ghost predicate Reach(es: seq<Edge>, a: Id, b: Id) {
    exists p :: IsPath(es, p) && p[0] == a && p[|p| - 1] == b
  }

  /** No edge closes a walk. */
  ghost predicate Acyclic(es: seq<Edge>) {
    forall e :: e in es ==> !Reach(es, e.to.node, e.from.node)
  }

  lemma ReachRefl(es: seq<Edge>, a: Id)
    ensures Reach(es, a, a)
  {
    assert IsPath(es, [a]);
  }

  lemma ReachLink(es: seq<Edge>, a: Id, b: Id)
    requires Linked(es, a, b)
    ensures Reach(es, a, b)
  {
    var p := [a, b];
    assert IsPath(es, p) && p[0] == a && p[|p| - 1] == b;
  }

  lemma ReachTrans(es: seq<Edge>, a: Id, b: Id, c: Id)
    requires Reach(es, a, b) && Reach(es, b, c)
    ensures Reach(es, a, c)
  {
    var p :| IsPath(es, p) && p[0] == a && p[|p| - 1] == b;
    var q :| IsPath(es, q) && q[0] == b && q[|q| - 1] == c;
    var r := p + q[1..];
    forall i | 0 <= i < |r| - 1
      ensures Linked(es, r[i], r[i + 1])
    {
      if i < |p| - 1 {
        assert r[i] == p[i] && r[i + 1] == p[i + 1];
      } else {
        assert r[i] == q[i - (|p| - 1)] && r[i + 1] == q[i - (|p| - 1) + 1];
      }
    }
    assert IsPath(es, r) && r[0] == a && r[|r| - 1] == c;
  }

  /** A path to another node starts with an edge. */
  lemma ReachFirst(es: seq<Edge>, a: Id, b: Id) returns (c: Id)
    requires Reach(es, a, b) && a != b
    ensures Linked(es, a, c) && Reach(es, c, b)
  {
    var p :| IsPath(es, p) && p[0] == a && p[|p| - 1] == b;
    c := p[1];
    assert IsPath(es, p[1..]) && p[1..][0] == c && p[1..][|p[1..]| - 1] == b;
  }

  /** A path to another node ends with an edge. */
  lemma ReachLast(es: seq<Edge>, a: Id, b: Id) returns (c: Id)
    requires Reach(es, a, b) && a != b
    ensures Reach(es, a, c) && Linked(es, c, b)
  {
    var p :| IsPath(es, p) && p[0] == a && p[|p| - 1] == b;
    var q := p[..|p| - 1];
    c := q[|q| - 1];
    assert IsPath(es, q) && q[0] == a && q[|q| - 1] == c;
  }

  /** What is closed under edges holds of everything reached. */
  lemma {:induction false} ClosedUnderPath(es: seq<Edge>, s: set<Id>, p: seq<Id>)
    requires IsPath(es, p) && p[0] in s
    requires forall e :: e in es && e.from.node in s ==> e.to.node in s
    ensures p[|p| - 1] in s
  {
    if |p| > 1 {
      assert Linked(es, p[0], p[1]);
      ClosedUnderPath(es, s, p[1..]);
    }
  }

  lemma ClosedUnderReach(es: seq<Edge>, s: set<Id>, a: Id, b: Id)
    requires Reach(es, a, b) && a in s
    requires forall e :: e in es && e.from.node in s ==> e.to.node in s
    ensures b in s
  {
    var p :| IsPath(es, p) && p[0] == a && p[|p| - 1] == b;
    ClosedUnderPath(es, s, p);
  }

  lemma ReachMono(es: seq<Edge>, es': seq<Edge>, a: Id, b: Id)
    requires Reach(es, a, b)
    requires forall x, y :: Linked(es, x, y) ==> Linked(es', x, y)
    ensures Reach(es', a, b)
  {
    var p :| IsPath(es, p) && p[0] == a && p[|p| - 1] == b;
    assert IsPath(es', p);
  }

  /** A graph in which every edge of another is walked reaches whatever the other does. */
  lemma {:induction false} PathSimulated(es: seq<Edge>, es': seq<Edge>, p: seq<Id>)
    requires IsPath(es, p)
    requires forall e :: e in es ==> Reach(es', e.from.node, e.to.node)
    ensures Reach(es', p[0], p[|p| - 1])
  {
    if |p| == 1 {
      ReachRefl(es', p[0]);
    } else {
      assert Linked(es, p[0], p[1]);
      PathSimulated(es, es', p[1..]);
      ReachTrans(es', p[0], p[1], p[|p| - 1]);
    }
  }

  lemma ReachSimulated(es: seq<Edge>, es': seq<Edge>, a: Id, b: Id)
    requires Reach(es, a, b)
    requires forall e :: e in es ==> Reach(es', e.from.node, e.to.node)
    ensures Reach(es', a, b)
  {
    var p :| IsPath(es, p) && p[0] == a && p[|p| - 1] == b;
    PathSimulated(es, es', p);
  }

  lemma ReachTwo(es: seq<Edge>, e: Edge, f: Edge)
    requires e in es && f in es && e.to.node == f.from.node
    ensures Reach(es, e.from.node, f.to.node)
  {
    ReachLink(es, e.from.node, e.to.node);
    ReachLink(es, f.from.node, f.to.node);
    ReachTrans(es, e.from.node, e.to.node, f.to.node);
  }

  /** An edge whose target reaches its source closes a walk. */
  lemma ClosingWalk(es: seq<Edge>, e: Edge) returns (q: seq<Id>)
    requires e in es && Reach(es, e.to.node, e.from.node)
    ensures IsPath(es, q) && |q| > 1 && q[0] == q[|q| - 1] == e.from.node
  {
    var p :| IsPath(es, p) && p[0] == e.to.node && p[|p| - 1] == e.from.node;
    q := [e.from.node] + p;
    assert Linked(es, e.from.node, e.to.node);
  }

  /** `Acyclic` says there is no closed walk. */
  lemma AcyclicNoClosedWalk(es: seq<Edge>)
    ensures Acyclic(es) <==> forall p :: IsPath(es, p) && |p| > 1 ==> p[0] != p[|p| - 1]
  {
    forall p | IsPath(es, p) && |p| > 1
      ensures Linked(es, p[0], p[1]) && Reach(es, p[1], p[|p| - 1])
    {
      assert IsPath(es, p[1..]);
    }
    if !Acyclic(es) {
      var e :| e in es && Reach(es, e.to.node, e.from.node);
      var q := ClosingWalk(es, e);
    }
  }

  // ----- One more edge -----

  lemma {:induction false} PathThroughNewEdge(es: seq<Edge>, e: Edge, p: seq<Id>)
    requires IsPath(es + [e], p)
    ensures Reach(es, p[0], p[|p| - 1])
         || (Reach(es, p[0], e.from.node) && Reach(es, e.to.node, p[|p| - 1]))
  {
    if |p| == 1 {
      ReachRefl(es, p[0]);
    } else {
      var q := p[1..];
      assert IsPath(es + [e], q);
      PathThroughNewEdge(es, e, q);
      assert Linked(es + [e], p[0], p[1]);
      if Linked(es, p[0], p[1]) {
        ReachLink(es, p[0], p[1]);
        if Reach(es, q[0], q[|q| - 1]) {
          ReachTrans(es, p[0], q[0], q[|q| - 1]);
        } else {
          ReachTrans(es, p[0], q[0], e.from.node);
        }
      } else {
        assert p[0] == e.from.node && p[1] == e.to.node;
        ReachRefl(es, p[0]);
      }
    }
  }

  /** What is reached once `e` is added: what was, or what its target reached from
      what reached its source. */
  lemma ReachAddEdge(es: seq<Edge>, e: Edge, a: Id, b: Id)
    ensures Reach(es + [e], a, b)
       <==> Reach(es, a, b) || (Reach(es, a, e.from.node) && Reach(es, e.to.node, b))
  {
    if Reach(es + [e], a, b) {
      var p :| IsPath(es + [e], p) && p[0] == a && p[|p| - 1] == b;
      PathThroughNewEdge(es, e, p);
    }
    assert forall x, y :: Linked(es, x, y) ==> Linked(es + [e], x, y);
    if Reach(es, a, b) {
      ReachMono(es, es + [e], a, b);
    }
    if Reach(es, a, e.from.node) && Reach(es, e.to.node, b) {
      ReachMono(es, es + [e], a, e.from.node);
      ReachMono(es, es + [e], e.to.node, b);
      assert e in es + [e];
      ReachLink(es + [e], e.from.node, e.to.node);
      ReachTrans(es + [e], a, e.from.node, e.to.node);
      ReachTrans(es + [e], a, e.to.node, b);
    }
  }

  /** An edge keeps the graph acyclic exactly when its target does not reach its source. */
  lemma AcyclicAddEdge(es: seq<Edge>, e: Edge)
    ensures Acyclic(es + [e]) <==> Acyclic(es) && !Reach(es, e.to.node, e.from.node)
  {
    forall f | f in es + [e]
      ensures Reach(es + [e], f.to.node, f.from.node)
          <==> (Reach(es, f.to.node, f.from.node)
                || (Reach(es, f.to.node, e.from.node) && Reach(es, e.to.node, f.from.node)))
    {
      ReachAddEdge(es, e, f.to.node, f.from.node);
    }
    assert e in es + [e];
    forall f | f in es && Reach(es, f.to.node, e.from.node) && Reach(es, e.to.node, f.from.node)
      ensures Reach(es, e.to.node, e.from.node)
    {
      ReachLink(es, f.from.node, f.to.node);
      ReachTrans(es, e.to.node, f.from.node, f.to.node);
      ReachTrans(es, e.to.node, f.to.node, e.from.node);
    }
    ReachRefl(es, e.to.node);
    assert forall f :: f in es + [e] <==> f in es || f == e;
  }

  // ----- The search -----

  function Targets(es: seq<Edge>): set<Id> {
    set e | e in es :: e.to.node
  }

  /** All of the search's nodes are reachable, and the target is not among them. */
  ghost predicate Explored(es: seq<Edge>, source: Id, target: Id, seen: set<Id>, stack: seq<Id>) {
    target !in seen && seen <= Targets(es) &&
    (forall x :: x in seen ==> Reach(es, source, x)) &&
    (forall x :: x in stack ==> Reach(es, source, x))
  }

  /** Every explored node that is off the stack has had its edges followed. */
  ghost predicate Expanded(es: seq<Edge>, source: Id, seen: set<Id>, stack: seq<Id>) {
    forall e :: e in es && (e.from.node in seen || e.from.node == source) && e.from.node !in stack
      ==> e.to.node in seen
  }

  /** The body of the search: follows the edges out of `current`. */
  method Follow(es: seq<Edge>, ghost source: Id, target: Id, current: Id, seen0: set<Id>, stack0: seq<Id>)
    returns (found: bool, seen: set<Id>, stack: seq<Id>)
    requires Explored(es, source, target, seen0, stack0) && Reach(es, source, current)
    ensures found ==> Reach(es, source, target)
    ensures !found ==> Explored(es, source, target, seen, stack)
    ensures !found ==> forall e :: e in es && e.from.node == current ==> e.to.node in seen
    ensures seen0 <= seen && stack0 <= stack && (seen == seen0 ==> stack == stack0)
    ensures forall x :: x in seen - seen0 ==> x in stack
  {
    found, seen, stack := false, seen0, stack0;
    for i := 0 to |es|
      invariant Explored(es, source, target, seen, stack)
      invariant seen0 <= seen && stack0 <= stack && (seen == seen0 ==> stack == stack0)
      invariant forall j :: 0 <= j < i && es[j].from.node == current ==> es[j].to.node in seen
      invariant forall x :: x in seen - seen0 ==> x in stack
    {
      var edge := es[i];
      if edge.from.node != current || edge.to.node in seen {
        continue;
      }
      ReachThenLink(es, source, edge);
      if edge.to.node == target {
        found := true;
        return;
      }
      assert edge.to.node in Targets(es);
      seen := seen + {edge.to.node};
      stack := stack + [edge.to.node];
    }
  }

  lemma SearchStarts(es: seq<Edge>, source: Id, target: Id)
    ensures Explored(es, source, target, {}, [source]) && Expanded(es, source, {}, [source])
    ensures Reach(es, source, source)
  {
    ReachRefl(es, source);
  }

  /** The node on top of the stack is reachable, and the search stands without it. */
  lemma TopReached(es: seq<Edge>, source: Id, target: Id, seen: set<Id>, stack: seq<Id>)
    requires Explored(es, source, target, seen, stack) && |stack| > 0
    ensures Reach(es, source, stack[|stack| - 1]) && Explored(es, source, target, seen, stack[..|stack| - 1])
  {
    assert stack[|stack| - 1] in stack;
  }

  /** Each node is pushed once: either fewer are left or the stack is shorter. */
  lemma FewerLeft(es: seq<Edge>, source: Id, target: Id, seen0: set<Id>, seen: set<Id>, stack: seq<Id>)
    requires Explored(es, source, target, seen, stack) && seen0 <= seen && seen != seen0
    ensures |Targets(es) - seen| < |Targets(es) - seen0|
  {
    var x :| x in seen && x !in seen0;
    assert x in Targets(es) - seen0 && x !in Targets(es) - seen;
    SubsetSmaller(Targets(es) - seen, Targets(es) - seen0);
  }

  /** Once the stack is empty the seen nodes are all there is to reach. */
  lemma SearchEnds(es: seq<Edge>, source: Id, target: Id, seen: set<Id>)
    requires Explored(es, source, target, seen, []) && Expanded(es, source, seen, []) && source != target
    ensures !Reach(es, source, target)
  {
    hide Reach;
    if Reach(es, source, target) {
      ClosedUnderReach(es, seen + {source}, source, target);
    }
  }

  /** Whether `target` is reachable from `source` along edges: the depth-first search
      over a stack and the set of nodes already seen. */
  method Reaches(dag: Dag, source: Id, target: Id) returns (r: bool)
    ensures r <==> Reach(dag.edges, source, target)
  {
    hide Reach, Explored, Expanded, Targets;
    var es := dag.edges;
    SearchStarts(es, source, target);
    if source == target {
      return true;
    }
    var seen: set<Id> := {};
    var stack := [source];
    while |stack| > 0
      invariant Explored(es, source, target, seen, stack)
      invariant Expanded(es, source, seen, stack)
      decreases |Targets(es) - seen|, |stack|
    {
      var current := stack[|stack| - 1];
      var below := stack[..|stack| - 1];
      ghost var stack0, seen0 := stack, seen;
      TopReached(es, source, target, seen, stack);
      var found;
      found, seen, stack := Follow(es, source, target, current, seen, below);
      if found {
        return true;
      }
      assert stack0 == below + [current];
      ExpandedStep(es, source, current, seen0, stack0, below, seen, stack);
      if seen != seen0 {
        FewerLeft(es, source, target, seen0, seen, stack);
      }
    }
    assert stack == [];
    SearchEnds(es, source, target, seen);
    return false;
  }

  lemma ReachThenLink(es: seq<Edge>, source: Id, e: Edge)
    requires e in es && Reach(es, source, e.from.node)
    ensures Reach(es, source, e.to.node)
  {
    ReachLink(es, e.from.node, e.to.node);
    ReachTrans(es, source, e.from.node, e.to.node);
  }

  lemma ExpandedStep(es: seq<Edge>, source: Id, current: Id, seen0: set<Id>, stack0: seq<Id>,
                     below: seq<Id>, seen: set<Id>, stack: seq<Id>)
    requires Expanded(es, source, seen0, stack0) && stack0 == below + [current]
    requires seen0 <= seen && below <= stack
    requires forall e :: e in es && e.from.node == current ==> e.to.node in seen
    requires forall x :: x in seen - seen0 ==> x in stack
    ensures Expanded(es, source, seen, stack)
  {
    forall e | e in es && (e.from.node in seen || e.from.node == source) && e.from.node !in stack
      ensures e.to.node in seen
    {
      if e.from.node != current {
        forall x | x in stack0 && x != current
          ensures x in stack
        {
          var i :| 0 <= i < |below| && below[i] == x;
          assert stack[i] == x;
        }
      }
    }
  }

  lemma SubsetSmaller<T>(a: set<T>, b: set<T>)
    requires a < b
    ensures |a| < |b|
  {
    var x :| x in b && x !in a;
    assert b == a + (b - a);
    assert |b| == |a| + |b - a|;
    assert x in b - a;
  }
}
