/** The walks up a node's first inputs: the load head it descends from, and the
    collection that head names. */
module Heads {
  import opened Wrappers
  import opened Graph
  import opened Paths
  import opened Typing

  /** The first cube input's source, if the node has one and it is fed. */
  function FirstSource(dag: Dag, id: Id): Option<Id> {
    match Wiring(dag, id)
    case None => None
    case Some(w) => if w.sources == [] then None else w.sources[0]
  }

  predicate IsLoad(dag: Dag, id: Id) {
    Wiring(dag, id).Some? && Wiring(dag, id).value.process.LoadCollection?
  }

  /** The load head reached from `id` along first inputs, stopping at a node already seen. */
  function HeadFrom(dag: Dag, id: Id, seen: set<Id>): (h: Option<Id>)
    ensures h.Some? ==> IsLoad(dag, h.value)
    decreases |Ids(dag) - seen|
  {
    if id in seen then None
    else if IsLoad(dag, id) then Some(id)
    else if FirstSource(dag, id).None? then None
    else
      assert id in Ids(dag) - seen;
      assert Ids(dag) - (seen + {id}) < Ids(dag) - seen;
      SubsetSmaller(Ids(dag) - (seen + {id}), Ids(dag) - seen);
      HeadFrom(dag, FirstSource(dag, id).value, seen + {id})
  }

  function Head(dag: Dag, id: Id): Option<Id> {
    HeadFrom(dag, id, {})
  }

  /** The collection a load names: its `id` argument, when that is a string. */
  function NodeCollection(dag: Dag, id: Id): Option<string> {
    match NodeOf(dag.nodes, id)
    case None => None
    case Some(n) => if "id" in n.params && n.params["id"].Str? then Some(n.params["id"].s) else None
  }

  function Collection(dag: Dag, id: Id): Option<string> {
    match Head(dag, id)
    case None => None
    case Some(h) => NodeCollection(dag, h)
  }

  /** The load at the head of the first-input chain. */
  method LoadHead(dag: Dag, id: Id) returns (head: Option<Id>)
    ensures head == Head(dag, id)
  {
    var seen: set<Id> := {};
    var current := Some(id);
    while current.Some? && current.value !in seen
      invariant current.Some? ==> HeadFrom(dag, current.value, seen) == Head(dag, id)
      invariant current.None? ==> Head(dag, id) == None
      decreases |Ids(dag) - seen|, if current.Some? then 1 else 0
    {
      var here := current.value;
      ghost var before := seen;
      seen := seen + {here};
      var node := NodeOf(dag.nodes, here);
      if node.Some? && node.value.process.LoadCollection? {
        return Some(here);
      }
      var ports := if node.None? then [] else Inputs(node.value.process);
      if ports == [] {
        current := None;
      } else {
        assert FirstSource(dag, here) == SourceOf(dag.edges, here, ports[0]);
        current := SourceOf(dag.edges, here, ports[0]);
        assert here in Ids(dag) - before;
        SubsetSmaller(Ids(dag) - seen, Ids(dag) - before);
      }
      assert current == FirstSource(dag, here);
      if current.None? {
        assert Ids(dag) - seen <= Ids(dag) - before;
        Subset(Ids(dag) - seen, Ids(dag) - before);
      }
    }
    return None;
  }

  lemma Subset<T>(a: set<T>, b: set<T>)
    requires a <= b
    ensures |a| <= |b|
  {
    assert b == a + (b - a);
  }

  /** The collection a node's cube traces back to. */
  method CollectionOf(dag: Dag, id: Id) returns (collection: Option<string>)
    ensures collection == Collection(dag, id)
  {
    var seen: set<Id> := {};
    var current := Some(id);
    while current.Some? && current.value !in seen
      invariant current.Some? ==> HeadFrom(dag, current.value, seen) == Head(dag, id)
      invariant current.None? ==> Head(dag, id) == None
      decreases |Ids(dag) - seen|, if current.Some? then 1 else 0
    {
      var here := current.value;
      ghost var before := seen;
      seen := seen + {here};
      var node := NodeOf(dag.nodes, here);
      if node.None? {
        return None;
      }
      assert here in Ids(dag) - before;
      SubsetSmaller(Ids(dag) - seen, Ids(dag) - before);
      var params := node.value.params;
      if node.value.process.LoadCollection? {
        return if "id" in params && params["id"].Str? then Some(params["id"].s) else None;
      }
      var ports := Inputs(node.value.process);
      current := if ports == [] then None else SourceOf(dag.edges, here, ports[0]);
      assert current == FirstSource(dag, here);
    }
    return None;
  }

  // ----- A typed node has a head -----

  /** The first-input walk for at most `k` nodes. */
  ghost function Walk(dag: Dag, k: nat, id: Id): Option<Id> {
    if k == 0 then None
    else if IsLoad(dag, id) then Some(id)
    else if FirstSource(dag, id).None? then None
    else Walk(dag, k - 1, FirstSource(dag, id).value)
  }

  lemma {:induction false} WalkMono(dag: Dag, k: nat, id: Id)
    requires Walk(dag, k, id).Some?
    ensures Walk(dag, k + 1, id) == Walk(dag, k, id)
  {
    if !IsLoad(dag, id) {
      WalkMono(dag, k - 1, FirstSource(dag, id).value);
    }
  }

  lemma FirstSourceRanked(dag: Dag, k: nat, id: Id)
    requires TypeIn(dag, k, id).Some? && !IsLoad(dag, id)
    ensures k > 0 && FirstSource(dag, id).Some? && Needs(dag, id, FirstSource(dag, id).value)
    ensures TypeIn(dag, k - 1, FirstSource(dag, id).value).Some?
  {
    var w := Wiring(dag, id).value;
    var stages := StagesIn(dag, k - 1, w.sources);
    assert w.sources != [];
    assert stages[0] in stages && stages[0] == StageIn(dag, k - 1, w.sources[0]);
    assert w.sources[0] in w.sources;
  }

  lemma Unranked(dag: Dag, k: nat, seen: set<Id>)
    requires k > 0 && forall x :: x in seen ==> TypeIn(dag, k, x).None?
    ensures forall x :: x in seen ==> TypeIn(dag, k - 1, x).None?
  {
    forall x | x in seen && TypeIn(dag, k - 1, x).Some?
      ensures TypeIn(dag, k, x).Some?
    {
      TypeMono(dag, k - 1, k, x);
    }
  }

  lemma HeadUnfold(dag: Dag, id: Id, seen: set<Id>)
    requires id !in seen && !IsLoad(dag, id) && FirstSource(dag, id).Some?
    ensures HeadFrom(dag, id, seen) == HeadFrom(dag, FirstSource(dag, id).value, seen + {id})
  {
  }

  lemma WalkUnfold(dag: Dag, k: nat, id: Id)
    requires k > 0 && !IsLoad(dag, id) && FirstSource(dag, id).Some?
    ensures Walk(dag, k, id) == Walk(dag, k - 1, FirstSource(dag, id).value)
  {
  }

  lemma NeedsReach(dag: Dag, h: Id, s: Id, id: Id)
    requires Needs(dag, id, s) && Reach(dag.edges, h, s)
    ensures Reach(dag.edges, h, id)
  {
    NeedsLinked(dag, id, s);
    ReachLink(dag.edges, s, id);
    ReachTrans(dag.edges, h, s, id);
  }

  /** The walk from a typed node never meets a node it has seen: ranks fall along it. */
  lemma {:induction false} HeadRanked(dag: Dag, k: nat, id: Id, seen: set<Id>)
    requires TypeIn(dag, k, id).Some?
    requires forall x :: x in seen ==> TypeIn(dag, k, x).None?
    ensures HeadFrom(dag, id, seen).Some? && HeadFrom(dag, id, seen) == Walk(dag, k, id)
    ensures Reach(dag.edges, HeadFrom(dag, id, seen).value, id)
    decreases k
  {
    hide Wiring, TypeIn, Typ, IsLoad, FirstSource, Reach, Needs;
    RankPositive(dag, k, id);
    if IsLoad(dag, id) {
      ReachRefl(dag.edges, id);
    } else if TypeIn(dag, k - 1, id).Some? {
      Unranked(dag, k, seen);
      HeadRanked(dag, k - 1, id, seen);
      WalkMono(dag, k - 1, id);
    } else {
      FirstSourceRanked(dag, k, id);
      var s := FirstSource(dag, id).value;
      Unranked(dag, k, seen);
      HeadRanked(dag, k - 1, s, seen + {id});
      HeadUnfold(dag, id, seen);
      WalkUnfold(dag, k, id);
      NeedsReach(dag, HeadFrom(dag, id, seen).value, s, id);
    }
  }

  /** A typed node has a load head, which reaches it. */
  lemma TypedHead(dag: Dag, id: Id)
    requires Typ(dag, id).Some?
    ensures Head(dag, id).Some? && IsLoad(dag, Head(dag, id).value)
    ensures Reach(dag.edges, Head(dag, id).value, id)
  {
    var k := TypRank(dag, id);
    HeadRanked(dag, k, id, {});
  }

  /** A typed step descends from the head its first source descends from. */
  lemma HeadStep(dag: Dag, id: Id)
    requires Typ(dag, id).Some? && !IsLoad(dag, id)
    ensures FirstSource(dag, id).Some? && Head(dag, id) == Head(dag, FirstSource(dag, id).value)
  {
    hide Wiring, TypeIn, Typ, HeadFrom, Walk, IsLoad, FirstSource;
    var k := TypRank(dag, id);
    FirstSourceRanked(dag, k, id);
    HeadRanked(dag, k, id, {});
    HeadRanked(dag, k - 1, FirstSource(dag, id).value, {});
    WalkUnfold(dag, k, id);
  }

  lemma {:induction false} HeadFromCongruence(dag: Dag, dag': Dag, s: iset<Id>, id: Id, seen: set<Id>)
    requires id in s
    requires forall x :: x in s ==> Wiring(dag', x) == Wiring(dag, x)
    requires forall x, y :: x in s && Needs(dag, x, y) ==> y in s
    ensures HeadFrom(dag', id, seen) == HeadFrom(dag, id, seen)
    decreases |Ids(dag) - seen|
  {
    if id !in seen && !IsLoad(dag, id) && FirstSource(dag, id).Some? {
      var w := Wiring(dag, id).value;
      assert w.sources[0] in w.sources;
      assert Needs(dag, id, FirstSource(dag, id).value);
      assert id in Ids(dag) - seen;
      SubsetSmaller(Ids(dag) - (seen + {id}), Ids(dag) - seen);
      HeadFromCongruence(dag, dag', s, FirstSource(dag, id).value, seen + {id});
    }
  }

  /** The first input of each process: a join's `cube1`, a scale's `x`, `data` of any other step;
      a load has none. */
  lemma FirstSourceAt(dag: Dag, id: Id)
    requires NodeOf(dag.nodes, id).Some?
    ensures FirstSource(dag, id) ==
      match NodeOf(dag.nodes, id).value.process
      case LoadCollection => None
      case MergeCubes => SourceOf(dag.edges, id, Cube1)
      case LinearScaleRange => SourceOf(dag.edges, id, X)
      case Other(_) => None
      case _ => SourceOf(dag.edges, id, Data)
  {
  }

  /** The collection is the `id` of the load the first inputs lead to, where that is a string. */
  lemma CollectionNamed(dag: Dag, id: Id, load: Node)
    requires Head(dag, id).Some? && NodeOf(dag.nodes, Head(dag, id).value) == Some(load)
    ensures Collection(dag, id) ==
      if "id" in load.params && load.params["id"].Str? then Some(load.params["id"].s) else None
  {
  }
}
