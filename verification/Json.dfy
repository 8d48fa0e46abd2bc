/** openEO process-graph values, as the authoring graph carries and lowers them. */
module Json {
  import opened Wrappers

  /** A JSON value, with the two forms openEO gives a meaning to told apart:
      - `Ref(id)` is the object whose only key is `from_node`, a string;
      - `Child(nodes, rest)` is an object whose `process_graph` is an object (`nodes`),
        with its other keys in `rest`.
      Numbers are kept as the text they are read from. */
  datatype Json =
    | Null
    | Bool(b: bool)
    | Num(text: string)
    | Str(s: string)
    | Arr(items: seq<Json>)
    | Obj(fields: map<string, Json>)
    | Ref(id: string)
    | Child(nodes: map<string, Json>, rest: map<string, Json>)

  /** What a value denotes once its references are followed: process graphs unfold to
      terms, so equal terms have equal values under every evaluator that computes a node
      from the values of its arguments.
      - `TFun` is a child graph, by the terms of its result nodes;
      - `TDangling` is a reference to no node;
      - `TCut` is a reference followed deeper than asked for. */
  datatype Term =
    | TNull
    | TBool(b: bool)
    | TNum(text: string)
    | TStr(s: string)
    | TArr(items: seq<Term>)
    | TObj(fields: map<string, Term>)
    | TFun(results: set<Term>)
    | TDangling
    | TCut

  type Scope = map<string, Json>

  /** A node marked as its graph's result. */
  predicate IsResult(j: Json) {
    j.Obj? && "result" in j.fields && j.fields["result"] == Bool(true)
  }

  /** The term of a value in a scope, following at most `n` references deep. A child
      graph is a scope of its own. */
  ghost function Resolve(scope: Scope, n: nat, j: Json): Term
    decreases n, j, 0
  {
    match j
    case Null => TNull
    case Bool(b) => TBool(b)
    case Num(text) => TNum(text)
    case Str(s) => TStr(s)
    case Arr(items) => TArr(seq(|items|, i requires 0 <= i < |items| => Resolve(scope, n, items[i])))
    case Obj(fields) => TObj(map k | k in fields :: Resolve(scope, n, fields[k]))
    case Ref(id) =>
      if n == 0 then TCut
      else if id in scope then NodeTerm(scope, n - 1, scope[id])
      else TDangling
    case Child(nodes, _) => TFun(set k | k in nodes && IsResult(nodes[k]) :: NodeTerm(nodes, n, nodes[k]))
  }

  /** The term of a node: its value, without the mark that it is the result. */
  ghost function NodeTerm(scope: Scope, n: nat, j: Json): Term
    decreases n, j, 1
  {
    match j
    case Obj(fields) => TObj(map k | k in fields && k != "result" :: Resolve(scope, n, fields[k]))
    case _ => Resolve(scope, n, j)
  }

  /** No reference outside a child graph. */
  predicate Closed(j: Json) {
    match j
    case Arr(items) => forall i :: 0 <= i < |items| ==> Closed(items[i])
    case Obj(fields) => forall k :: k in fields ==> Closed(fields[k])
    case Ref(_) => false
    case _ => true
  }

  /** A closed value means the same in every scope. */
  lemma {:induction false} ClosedAnyScope(scope: Scope, scope': Scope, n: nat, j: Json)
    requires Closed(j)
    ensures Resolve(scope, n, j) == Resolve(scope', n, j)
    decreases j
  {
    match j
    case Arr(items) =>
      forall i | 0 <= i < |items|
        ensures Resolve(scope, n, items[i]) == Resolve(scope', n, items[i])
      {
        ClosedAnyScope(scope, scope', n, items[i]);
      }
      assert Resolve(scope, n, j).items == Resolve(scope', n, j).items;
    case Obj(fields) =>
      forall k | k in fields
        ensures Resolve(scope, n, fields[k]) == Resolve(scope', n, fields[k])
      {
        ClosedAnyScope(scope, scope', n, fields[k]);
      }
      assert Resolve(scope, n, j).fields == Resolve(scope', n, j).fields;
    case _ =>
  }

  // ----- Prefixing a child graph -----

  const CHILD_SEP: char := '.'

  /** The key of child `key` of node `owner`. */
  function ChildKey(owner: string, key: string): string {
    owner + [CHILD_SEP] + key
  }

  lemma ChildKeyText(owner: string, key: string)
    ensures ChildKey(owner, key) == owner + "." + key
  {
    assert [CHILD_SEP] == ".";
  }

  lemma ChildKeyInjective(owner: string, k: string, l: string)
    requires ChildKey(owner, k) == ChildKey(owner, l)
    ensures k == l
  {
    assert ChildKey(owner, k)[|owner| + 1..] == k;
    assert ChildKey(owner, l)[|owner| + 1..] == l;
  }

  /** Every reference in the value, however deep, moved under the owner's prefix. */
  function RewriteRefs(owner: string, j: Json): Json {
    match j
    case Arr(items) => Arr(seq(|items|, i requires 0 <= i < |items| => RewriteRefs(owner, items[i])))
    case Obj(fields) => Obj(map k | k in fields :: RewriteRefs(owner, fields[k]))
    case Ref(id) => Ref(ChildKey(owner, id))
    case Child(nodes, rest) =>
      Child(map k | k in nodes :: RewriteRefs(owner, nodes[k]), map k | k in rest :: RewriteRefs(owner, rest[k]))
    case _ => j
  }

  /** A child graph with its keys and references under the owner's prefix. */
  ghost predicate IsPrefixed(owner: string, nodes: Scope, out: Scope) {
    (forall k :: k in nodes ==> ChildKey(owner, k) in out && out[ChildKey(owner, k)] == RewriteRefs(owner, nodes[k])) &&
    (forall key :: key in out ==> exists k :: k in nodes && key == ChildKey(owner, k))
  }

  /** Fills the prefixed graph key by key. */
  method PrefixChild(owner: string, nodes: Scope) returns (out: Scope)
    ensures IsPrefixed(owner, nodes, out)
  {
    out := map[];
    var keys := nodes.Keys;
    while keys != {}
      invariant keys <= nodes.Keys
      invariant forall k :: k in nodes.Keys - keys ==>
        ChildKey(owner, k) in out && out[ChildKey(owner, k)] == RewriteRefs(owner, nodes[k])
      invariant forall key :: key in out ==> exists k :: k in nodes.Keys - keys && key == ChildKey(owner, k)
      decreases keys
    {
      var k :| k in keys;
      forall l | l in nodes.Keys - keys
        ensures ChildKey(owner, l) != ChildKey(owner, k)
      {
        if ChildKey(owner, l) == ChildKey(owner, k) { ChildKeyInjective(owner, l, k); }
      }
      out := out[ChildKey(owner, k) := RewriteRefs(owner, nodes[k])];
      keys := keys - {k};
    }
  }

  /** The prefixed graph is determined. */
  lemma PrefixedUnique(owner: string, nodes: Scope, a: Scope, b: Scope)
    requires IsPrefixed(owner, nodes, a) && IsPrefixed(owner, nodes, b)
    ensures a == b
  {
    assert a.Keys == b.Keys;
  }

  lemma PrefixKeepsResult(owner: string, j: Json)
    ensures IsResult(RewriteRefs(owner, j)) <==> IsResult(j)
  {
  }

  // ----- What prefixing keeps -----

  /** No reference is followed in reading the value: it holds none outside child graphs,
      nor do the result nodes of its child graphs, at every level. */
  predicate Inert(j: Json) {
    match j
    case Arr(items) => forall i :: 0 <= i < |items| ==> Inert(items[i])
    case Obj(fields) => forall k :: k in fields ==> Inert(fields[k])
    case Ref(_) => false
    case Child(nodes, _) => forall k :: k in nodes && IsResult(nodes[k]) ==> Inert(nodes[k])
    case _ => true
  }

  /** Every child graph inside the value is inert. */
  predicate InertChildren(j: Json) {
    match j
    case Arr(items) => forall i :: 0 <= i < |items| ==> InertChildren(items[i])
    case Obj(fields) => forall k :: k in fields ==> InertChildren(fields[k])
    case Child(_, _) => Inert(j)
    case _ => true
  }

  /** A reference to `id` stands in the value, outside child graphs. */
  predicate Holds(j: Json, id: string) {
    match j
    case Arr(items) => exists i :: 0 <= i < |items| && Holds(items[i], id)
    case Obj(fields) => exists k :: k in fields && Holds(fields[k], id)
    case Ref(r) => r == id
    case _ => false
  }

  /** The same of a node, whose `result` mark is no part of its meaning. */
  predicate NodeHolds(j: Json, id: string) {
    match j
    case Obj(fields) => exists k :: k in fields && k != "result" && Holds(fields[k], id)
    case _ => Holds(j, id)
  }

  predicate NodeInertChildren(j: Json) {
    match j
    case Obj(fields) => forall k :: k in fields && k != "result" ==> InertChildren(fields[k])
    case _ => InertChildren(j)
  }

  predicate Follows(nodes: Scope, a: string, b: string) {
    a in nodes && b in nodes && NodeHolds(nodes[a], b)
  }

  /** A walk along references, from a result node. */
  ghost predicate RefWalk(nodes: Scope, p: seq<string>) {
    p != [] && p[0] in nodes && IsResult(nodes[p[0]]) && p[|p| - 1] in nodes &&
    forall i :: 0 <= i < |p| - 1 ==> Follows(nodes, p[i], p[i + 1])
  }

  /** Every node that references lead to from a result holds inert child graphs only. */
  ghost predicate Prefixable(nodes: Scope) {
    forall p :: RefWalk(nodes, p) ==> NodeInertChildren(nodes[p[|p| - 1]])
  }

  /** The same, as far as `n` references lead from a value. */
  ghost predicate Kept(nodes: Scope, n: nat, j: Json)
    decreases n, j, 0
  {
    match j
    case Arr(items) => forall i :: 0 <= i < |items| ==> Kept(nodes, n, items[i])
    case Obj(fields) => forall k :: k in fields ==> Kept(nodes, n, fields[k])
    case Ref(id) => n == 0 || id !in nodes || KeptNode(nodes, n - 1, nodes[id])
    case Child(_, _) => n == 0 || Inert(j)
    case _ => true
  }

  ghost predicate KeptNode(nodes: Scope, n: nat, j: Json)
    decreases n, j, 1
  {
    match j
    case Obj(fields) => forall k :: k in fields && k != "result" ==> Kept(nodes, n, fields[k])
    case _ => Kept(nodes, n, j)
  }

  ghost predicate KeptResults(nodes: Scope, n: nat) {
    forall k :: k in nodes && IsResult(nodes[k]) ==> KeptNode(nodes, n, nodes[k])
  }

  /** Child graphs whose results have the same terms denote the same function. */
  lemma SameResults(nodes: Scope, nodes': Scope, n: nat, rest: map<string, Json>, rest': map<string, Json>,
                    scope: Scope, scope': Scope)
    requires nodes'.Keys == nodes.Keys
    requires forall k :: k in nodes ==> (IsResult(nodes'[k]) <==> IsResult(nodes[k]))
    requires forall k :: k in nodes && IsResult(nodes[k]) ==>
      NodeTerm(nodes', n, nodes'[k]) == NodeTerm(nodes, n, nodes[k])
    ensures Resolve(scope', n, Child(nodes', rest')) == Resolve(scope, n, Child(nodes, rest))
  {
    hide NodeTerm, IsResult;
    assert Resolve(scope', n, Child(nodes', rest')).results == Resolve(scope, n, Child(nodes, rest)).results;
  }

  /** Renaming the references of a value in which none is followed keeps its meaning, in
      any scopes. */
  lemma {:induction false} InertPreserves(owner: string, scope: Scope, scope': Scope, n: nat, j: Json)
    requires n == 0 || Inert(j)
    ensures Resolve(scope', n, RewriteRefs(owner, j)) == Resolve(scope, n, j)
    decreases j, 0
  {
    var j' := RewriteRefs(owner, j);
    match j
    case Arr(items) =>
      forall i | 0 <= i < |items|
        ensures Resolve(scope', n, j'.items[i]) == Resolve(scope, n, items[i])
      {
        InertPreserves(owner, scope, scope', n, items[i]);
      }
      assert Resolve(scope', n, j').items == Resolve(scope, n, j).items;
    case Obj(fields) =>
      InertFields(owner, scope, scope', n, j);
      assert Resolve(scope', n, j').fields == Resolve(scope, n, j).fields;
    case Child(_, _) =>
      InertChild(owner, scope, scope', n, j);
    case _ =>
  }

  lemma {:induction false} InertChild(owner: string, scope: Scope, scope': Scope, n: nat, j: Json)
    requires j.Child? && (n == 0 || Inert(j))
    ensures Resolve(scope', n, RewriteRefs(owner, j)) == Resolve(scope, n, j)
    decreases j, 0, 0
  {
    hide Resolve, NodeTerm, IsResult;
    var j' := RewriteRefs(owner, j);
    forall k | k in j.nodes
      ensures IsResult(j'.nodes[k]) <==> IsResult(j.nodes[k])
      ensures IsResult(j.nodes[k]) ==> NodeTerm(j'.nodes, n, j'.nodes[k]) == NodeTerm(j.nodes, n, j.nodes[k])
    {
      PrefixKeepsResult(owner, j.nodes[k]);
      if IsResult(j.nodes[k]) {
        ResultIsNode(j.nodes[k]);
        InertNode(owner, j.nodes, j'.nodes, n, j.nodes[k]);
      }
    }
    SameResults(j.nodes, j'.nodes, n, j.rest, j'.rest, scope, scope');
  }

  lemma ResultIsNode(j: Json)
    requires IsResult(j)
    ensures j.Obj?
  {
  }

  lemma {:induction false} InertNode(owner: string, scope: Scope, scope': Scope, n: nat, j: Json)
    requires j.Obj? && (n == 0 || Inert(j))
    ensures NodeTerm(scope', n, RewriteRefs(owner, j)) == NodeTerm(scope, n, j)
    decreases j, 1
  {
    hide Resolve, Inert;
    InertFields(owner, scope, scope', n, j);
    assert NodeTerm(scope', n, RewriteRefs(owner, j)).fields == NodeTerm(scope, n, j).fields;
  }

  lemma {:induction false} InertFields(owner: string, scope: Scope, scope': Scope, n: nat, j: Json)
    requires j.Obj? && (n == 0 || Inert(j))
    ensures forall k :: k in j.fields ==>
      Resolve(scope', n, RewriteRefs(owner, j.fields[k])) == Resolve(scope, n, j.fields[k])
    decreases j, 0, 0
  {
    forall k | k in j.fields
      ensures Resolve(scope', n, RewriteRefs(owner, j.fields[k])) == Resolve(scope, n, j.fields[k])
    {
      InertPreserves(owner, scope, scope', n, j.fields[k]);
    }
  }

  /** Prefixing preserves meaning: a rewritten value in the prefixed graph denotes what
      the value denoted in the graph. */
  lemma {:induction false} PrefixPreserves(owner: string, nodes: Scope, out: Scope, n: nat, j: Json)
    requires IsPrefixed(owner, nodes, out) && Kept(nodes, n, j)
    ensures Resolve(out, n, RewriteRefs(owner, j)) == Resolve(nodes, n, j)
    decreases n, j, 0
  {
    var j' := RewriteRefs(owner, j);
    match j
    case Arr(items) =>
      forall i | 0 <= i < |items|
        ensures Resolve(out, n, j'.items[i]) == Resolve(nodes, n, items[i])
      {
        PrefixPreserves(owner, nodes, out, n, items[i]);
      }
      assert Resolve(out, n, j').items == Resolve(nodes, n, j).items;
    case Obj(fields) =>
      forall k | k in fields
        ensures Resolve(out, n, j'.fields[k]) == Resolve(nodes, n, fields[k])
      {
        PrefixPreserves(owner, nodes, out, n, fields[k]);
      }
      assert Resolve(out, n, j').fields == Resolve(nodes, n, j).fields;
    case Ref(id) =>
      PrefixedKey(owner, nodes, out, id);
      if n > 0 && id in nodes {
        PrefixNode(owner, nodes, out, n - 1, nodes[id]);
      }
    case Child(_, _) =>
      InertPreserves(owner, nodes, out, n, j);
    case _ =>
  }

  lemma PrefixedKey(owner: string, nodes: Scope, out: Scope, id: string)
    requires IsPrefixed(owner, nodes, out)
    ensures ChildKey(owner, id) in out <==> id in nodes
    ensures id in nodes ==> out[ChildKey(owner, id)] == RewriteRefs(owner, nodes[id])
  {
    if ChildKey(owner, id) in out {
      var k :| k in nodes && ChildKey(owner, id) == ChildKey(owner, k);
      ChildKeyInjective(owner, id, k);
    }
  }

  lemma {:induction false} PrefixNode(owner: string, nodes: Scope, out: Scope, n: nat, j: Json)
    requires IsPrefixed(owner, nodes, out) && KeptNode(nodes, n, j)
    ensures NodeTerm(out, n, RewriteRefs(owner, j)) == NodeTerm(nodes, n, j)
    decreases n, j, 1
  {
    if j.Obj? {
      var j' := RewriteRefs(owner, j);
      forall k | k in j.fields && k != "result"
        ensures Resolve(out, n, j'.fields[k]) == Resolve(nodes, n, j.fields[k])
      {
        PrefixPreserves(owner, nodes, out, n, j.fields[k]);
      }
      assert NodeTerm(out, n, j').fields == NodeTerm(nodes, n, j).fields;
    } else {
      PrefixPreserves(owner, nodes, out, n, j);
    }
  }

  /** So the prefixed graph denotes the same function, in any surrounding scope, as deep as
      its results are kept. */
  lemma PrefixedTermAt(owner: string, nodes: Scope, rest: map<string, Json>, out: Scope,
                       scope: Scope, scope': Scope, n: nat)
    requires IsPrefixed(owner, nodes, out) && KeptResults(nodes, n)
    ensures Resolve(scope', n, Child(out, map[])) == Resolve(scope, n, Child(nodes, rest))
  {
    var before := Resolve(scope, n, Child(nodes, rest)).results;
    var after := Resolve(scope', n, Child(out, map[])).results;
    forall k | k in nodes
      ensures var key := ChildKey(owner, k);
              (IsResult(out[key]) <==> IsResult(nodes[k])) &&
              (IsResult(nodes[k]) ==> NodeTerm(out, n, out[key]) == NodeTerm(nodes, n, nodes[k]))
    {
      PrefixKeepsResult(owner, nodes[k]);
      if IsResult(nodes[k]) { PrefixNode(owner, nodes, out, n, nodes[k]); }
    }
    hide NodeTerm, IsResult, KeptResults, RewriteRefs;
    forall t | t in before
      ensures t in after
    {
      var k :| k in nodes && IsResult(nodes[k]) && NodeTerm(nodes, n, nodes[k]) == t;
      assert ChildKey(owner, k) in out;
    }
    forall t | t in after
      ensures t in before
    {
      var key :| key in out && IsResult(out[key]) && NodeTerm(out, n, out[key]) == t;
      var k :| k in nodes && key == ChildKey(owner, k);
    }
    assert before == after;
  }

  // ----- When prefixing keeps meaning -----

  /** References outside child graphs name one of `keys`; those of child graphs name keys of
      their own, which hold no separator. */
  predicate OwnRefs(j: Json, keys: set<string>) {
    match j
    case Arr(items) => forall i :: 0 <= i < |items| ==> OwnRefs(items[i], keys)
    case Obj(fields) => forall k :: k in fields ==> OwnRefs(fields[k], keys)
    case Ref(id) => id in keys
    case Child(nodes, _) => forall k :: k in nodes ==> CHILD_SEP !in k && OwnRefs(nodes[k], nodes.Keys)
    case _ => true
  }

  predicate SelfContained(nodes: Scope) {
    forall k :: k in nodes ==> OwnRefs(nodes[k], nodes.Keys)
  }

  ghost predicate Dangles(t: Term) {
    match t
    case TArr(items) => exists i :: 0 <= i < |items| && Dangles(items[i])
    case TObj(fields) => exists k :: k in fields && Dangles(fields[k])
    case TFun(results) => exists r :: r in results && Dangles(r)
    case TDangling => true
    case _ => false
  }

  /** Nothing dangles in a self-contained graph. */
  lemma {:induction false} OwnRefsResolve(nodes: Scope, n: nat, j: Json)
    requires SelfContained(nodes) && OwnRefs(j, nodes.Keys)
    ensures !Dangles(Resolve(nodes, n, j))
    decreases n, j, 0
  {
    match j
    case Arr(items) =>
      forall i | 0 <= i < |items|
        ensures !Dangles(Resolve(nodes, n, items[i]))
      {
        OwnRefsResolve(nodes, n, items[i]);
      }
    case Obj(fields) =>
      forall k | k in fields
        ensures !Dangles(Resolve(nodes, n, fields[k]))
      {
        OwnRefsResolve(nodes, n, fields[k]);
      }
    case Ref(id) =>
      if n > 0 { OwnRefsNode(nodes, n - 1, nodes[id]); }
    case Child(inner, _) =>
      forall k | k in inner
        ensures !Dangles(NodeTerm(inner, n, inner[k]))
      {
        OwnRefsNode(inner, n, inner[k]);
      }
    case _ =>
  }

  lemma {:induction false} OwnRefsNode(nodes: Scope, n: nat, j: Json)
    requires SelfContained(nodes) && OwnRefs(j, nodes.Keys)
    ensures !Dangles(NodeTerm(nodes, n, j))
    decreases n, j, 1
  {
    if j.Obj? {
      forall k | k in j.fields
        ensures !Dangles(Resolve(nodes, n, j.fields[k]))
      {
        OwnRefsResolve(nodes, n, j.fields[k]);
      }
    } else {
      OwnRefsResolve(nodes, n, j);
    }
  }

  /** A reference renamed under a prefix dangles where no key holds the separator. */
  lemma {:induction false} MovedDangles(owner: string, scope: Scope, keys: set<string>, n: nat, j: Json)
    requires n > 0 && !Inert(j) && OwnRefs(j, keys)
    requires j.Child? || forall k :: k in scope ==> CHILD_SEP !in k
    ensures Dangles(Resolve(scope, n, RewriteRefs(owner, j)))
    decreases j, 0
  {
    var j' := RewriteRefs(owner, j);
    match j
    case Arr(items) =>
      var i :| 0 <= i < |items| && !Inert(items[i]);
      MovedDangles(owner, scope, keys, n, items[i]);
      assert Resolve(scope, n, j').items[i] == Resolve(scope, n, j'.items[i]);
    case Obj(fields) =>
      var k :| k in fields && !Inert(fields[k]);
      MovedDangles(owner, scope, keys, n, fields[k]);
      assert Resolve(scope, n, j').fields[k] == Resolve(scope, n, j'.fields[k]);
    case Ref(id) =>
      assert ChildKey(owner, id)[|owner|] == CHILD_SEP;
    case Child(nodes, _) =>
      var k :| k in nodes && IsResult(nodes[k]) && !Inert(nodes[k]);
      PrefixKeepsResult(owner, nodes[k]);
      MovedNodeDangles(owner, j'.nodes, nodes.Keys, n, nodes[k]);
      assert NodeTerm(j'.nodes, n, j'.nodes[k]) in Resolve(scope, n, j').results;
    case _ =>
  }

  lemma {:induction false} MovedNodeDangles(owner: string, scope: Scope, keys: set<string>, n: nat, j: Json)
    requires n > 0 && IsResult(j) && !Inert(j) && OwnRefs(j, keys) && forall k :: k in scope ==> CHILD_SEP !in k
    ensures Dangles(NodeTerm(scope, n, RewriteRefs(owner, j)))
    decreases j, 0, 0
  {
    var j' := RewriteRefs(owner, j);
    var k :| k in j.fields && !Inert(j.fields[k]);
    assert k != "result";
    MovedDangles(owner, scope, keys, n, j.fields[k]);
    assert NodeTerm(scope, n, j').fields[k] == Resolve(scope, n, j'.fields[k]);
  }

  /** The two values denote the same, at every depth. */
  ghost predicate SameMeaning(scope: Scope, j: Json, j': Json) {
    forall n: nat :: Resolve(scope, n, j') == Resolve(scope, n, j)
  }

  /** For a child graph nested in another, whose references name its own keys, renaming
      keeps its meaning at every depth exactly when it is inert. */
  lemma NestedExact(owner: string, child: Json, scope: Scope)
    requires child.Child? && OwnRefs(child, {})
    ensures SameMeaning(scope, child, RewriteRefs(owner, child)) <==> Inert(child)
  {
    if Inert(child) {
      forall n: nat
        ensures Resolve(scope, n, RewriteRefs(owner, child)) == Resolve(scope, n, child)
      {
        InertPreserves(owner, scope, scope, n, child);
      }
    } else {
      MovedDangles(owner, scope, {}, 1, child);
      ChildResolves(scope, 1, child);
      assert Resolve(scope, 1, RewriteRefs(owner, child)) != Resolve(scope, 1, child);
    }
  }

  lemma ChildResolves(scope: Scope, n: nat, child: Json)
    requires child.Child? && OwnRefs(child, {})
    ensures !Dangles(Resolve(scope, n, child))
  {
    OwnRefsResolve(map[], n, child);
    assert Resolve(scope, n, child) == Resolve(map[], n, child);
  }

  /** In a prefixed self-contained graph, what is not kept dangles. */
  lemma {:induction false} PrefixedDangles(owner: string, nodes: Scope, out: Scope, n: nat, j: Json)
    requires IsPrefixed(owner, nodes, out) && SelfContained(nodes) && OwnRefs(j, nodes.Keys) && !Kept(nodes, n, j)
    ensures Dangles(Resolve(out, n, RewriteRefs(owner, j)))
    decreases n, j, 0
  {
    var j' := RewriteRefs(owner, j);
    match j
    case Arr(items) =>
      var i :| 0 <= i < |items| && !Kept(nodes, n, items[i]);
      PrefixedDangles(owner, nodes, out, n, items[i]);
      assert Resolve(out, n, j').items[i] == Resolve(out, n, j'.items[i]);
    case Obj(fields) =>
      var k :| k in fields && !Kept(nodes, n, fields[k]);
      PrefixedDangles(owner, nodes, out, n, fields[k]);
      assert Resolve(out, n, j').fields[k] == Resolve(out, n, j'.fields[k]);
    case Ref(id) =>
      PrefixedKey(owner, nodes, out, id);
      PrefixedNodeDangles(owner, nodes, out, n - 1, nodes[id]);
    case Child(_, _) =>
      MovedDangles(owner, out, nodes.Keys, n, j);
    case _ =>
  }

  lemma {:induction false} PrefixedNodeDangles(owner: string, nodes: Scope, out: Scope, n: nat, j: Json)
    requires IsPrefixed(owner, nodes, out) && SelfContained(nodes) && OwnRefs(j, nodes.Keys) && !KeptNode(nodes, n, j)
    ensures Dangles(NodeTerm(out, n, RewriteRefs(owner, j)))
    decreases n, j, 1
  {
    if j.Obj? {
      var k :| k in j.fields && k != "result" && !Kept(nodes, n, j.fields[k]);
      PrefixedDangles(owner, nodes, out, n, j.fields[k]);
      assert NodeTerm(out, n, RewriteRefs(owner, j)).fields[k] == Resolve(out, n, RewriteRefs(owner, j).fields[k]);
    } else {
      PrefixedDangles(owner, nodes, out, n, j);
    }
  }

  lemma PrefixedTermExactAt(owner: string, nodes: Scope, rest: map<string, Json>, out: Scope, scope: Scope, n: nat)
    requires IsPrefixed(owner, nodes, out) && SelfContained(nodes)
    ensures Resolve(scope, n, Child(out, map[])) == Resolve(scope, n, Child(nodes, rest)) <==> KeptResults(nodes, n)
  {
    hide *;
    if KeptResults(nodes, n) {
      PrefixedTermAt(owner, nodes, rest, out, scope, scope, n);
    } else {
      var t := DanglingResult(owner, nodes, out, scope, n);
      NoDanglingResult(nodes, rest, scope, n, t);
    }
  }

  lemma DanglingResult(owner: string, nodes: Scope, out: Scope, scope: Scope, n: nat) returns (t: Term)
    requires IsPrefixed(owner, nodes, out) && SelfContained(nodes) && !KeptResults(nodes, n)
    ensures Resolve(scope, n, Child(out, map[])).TFun?
    ensures t in Resolve(scope, n, Child(out, map[])).results && Dangles(t)
  {
    hide NodeTerm, IsResult, Dangles, RewriteRefs, KeptNode, OwnRefs;
    var k :| k in nodes && IsResult(nodes[k]) && !KeptNode(nodes, n, nodes[k]);
    PrefixKeepsResult(owner, nodes[k]);
    PrefixedNodeDangles(owner, nodes, out, n, nodes[k]);
    t := NodeTerm(out, n, out[ChildKey(owner, k)]);
  }

  lemma NoDanglingResult(nodes: Scope, rest: map<string, Json>, scope: Scope, n: nat, t: Term)
    requires SelfContained(nodes) && Dangles(t)
    ensures Resolve(scope, n, Child(nodes, rest)).TFun? && t !in Resolve(scope, n, Child(nodes, rest)).results
  {
    hide NodeTerm, IsResult, Dangles;
    forall k | k in nodes
      ensures NodeTerm(nodes, n, nodes[k]) != t
    {
      OwnRefsNode(nodes, n, nodes[k]);
    }
  }

  // ----- Kept at every depth is reachability -----

  lemma {:induction false} InertChildrenKept(nodes: Scope, p: seq<string>, n: nat, j: Json)
    requires Prefixable(nodes) && RefWalk(nodes, p) && InertChildren(j)
    requires forall id :: Holds(j, id) ==> NodeHolds(nodes[p[|p| - 1]], id)
    ensures Kept(nodes, n, j)
    decreases n, j, 0
  {
    match j
    case Arr(items) =>
      forall i | 0 <= i < |items|
        ensures Kept(nodes, n, items[i])
      {
        forall id | Holds(items[i], id)
          ensures NodeHolds(nodes[p[|p| - 1]], id)
        {
          assert Holds(j, id);
        }
        InertChildrenKept(nodes, p, n, items[i]);
      }
    case Obj(fields) =>
      forall k | k in fields
        ensures Kept(nodes, n, fields[k])
      {
        forall id | Holds(fields[k], id)
          ensures NodeHolds(nodes[p[|p| - 1]], id)
        {
          assert Holds(j, id);
        }
        InertChildrenKept(nodes, p, n, fields[k]);
      }
    case Ref(id) =>
      if n > 0 && id in nodes {
        assert Holds(j, id);
        WalkOn(nodes, p, id);
        WalkKept(nodes, p + [id], n - 1);
      }
    case _ =>
  }

  lemma WalkOn(nodes: Scope, p: seq<string>, id: string)
    requires RefWalk(nodes, p) && id in nodes && NodeHolds(nodes[p[|p| - 1]], id)
    ensures RefWalk(nodes, p + [id])
  {
    hide NodeHolds, IsResult;
    var q := p + [id];
    forall i | 0 <= i < |q| - 1
      ensures Follows(nodes, q[i], q[i + 1])
    {
      if i < |p| - 1 { assert Follows(nodes, p[i], p[i + 1]); }
    }
  }

  lemma {:induction false} WalkKept(nodes: Scope, p: seq<string>, n: nat)
    requires Prefixable(nodes) && RefWalk(nodes, p)
    ensures KeptNode(nodes, n, nodes[p[|p| - 1]])
    decreases n, nodes[p[|p| - 1]], 1
  {
    var j := nodes[p[|p| - 1]];
    if j.Obj? {
      forall k | k in j.fields && k != "result"
        ensures Kept(nodes, n, j.fields[k])
      {
        InertChildrenKept(nodes, p, n, j.fields[k]);
      }
    } else {
      InertChildrenKept(nodes, p, n, j);
    }
  }

  lemma {:induction false} KeptHeld(nodes: Scope, n: nat, j: Json, id: string)
    requires n > 0 && Kept(nodes, n, j) && Holds(j, id) && id in nodes
    ensures KeptNode(nodes, n - 1, nodes[id])
    decreases j
  {
    match j
    case Arr(items) =>
      var i :| 0 <= i < |items| && Holds(items[i], id);
      KeptHeld(nodes, n, items[i], id);
    case Obj(fields) =>
      var k :| k in fields && Holds(fields[k], id);
      KeptHeld(nodes, n, fields[k], id);
    case _ =>
  }

  lemma {:induction false} KeptInert(nodes: Scope, n: nat, j: Json)
    requires n > 0 && Kept(nodes, n, j)
    ensures InertChildren(j)
    decreases j
  {
    match j
    case Arr(items) =>
      forall i | 0 <= i < |items|
        ensures InertChildren(items[i])
      {
        KeptInert(nodes, n, items[i]);
      }
    case Obj(fields) =>
      forall k | k in fields
        ensures InertChildren(fields[k])
      {
        KeptInert(nodes, n, fields[k]);
      }
    case _ =>
  }

  lemma KeptNodeHeld(nodes: Scope, n: nat, j: Json, id: string)
    requires n > 0 && KeptNode(nodes, n, j) && NodeHolds(j, id) && id in nodes
    ensures KeptNode(nodes, n - 1, nodes[id])
  {
    hide Holds, Kept;
    if j.Obj? {
      var k :| k in j.fields && k != "result" && Holds(j.fields[k], id);
      KeptHeld(nodes, n, j.fields[k], id);
    } else {
      KeptHeld(nodes, n, j, id);
    }
  }

  lemma KeptNodeInert(nodes: Scope, n: nat, j: Json)
    requires n > 0 && KeptNode(nodes, n, j)
    ensures NodeInertChildren(j)
  {
    hide Kept, InertChildren;
    if j.Obj? {
      forall k | k in j.fields && k != "result"
        ensures InertChildren(j.fields[k])
      {
        KeptInert(nodes, n, j.fields[k]);
      }
    } else {
      KeptInert(nodes, n, j);
    }
  }

  lemma {:induction false} KeptAlong(nodes: Scope, p: seq<string>, n: nat, i: nat)
    requires RefWalk(nodes, p) && i < |p| && n >= |p| && KeptResults(nodes, n)
    ensures p[i] in nodes && KeptNode(nodes, n - i, nodes[p[i]])
  {
    if i > 0 {
      KeptAlong(nodes, p, n, i - 1);
      assert Follows(nodes, p[i - 1], p[i - 1 + 1]);
      KeptNodeHeld(nodes, n - i + 1, nodes[p[i - 1]], p[i]);
    }
  }

  /** A graph's results are kept at every depth exactly when every node that references lead
      to from a result holds inert child graphs only. */
  lemma PrefixableKept(nodes: Scope)
    ensures Prefixable(nodes) <==> forall n: nat :: KeptResults(nodes, n)
  {
    if Prefixable(nodes) {
      forall n: nat, k | k in nodes && IsResult(nodes[k])
        ensures KeptNode(nodes, n, nodes[k])
      {
        assert RefWalk(nodes, [k]);
        WalkKept(nodes, [k], n);
      }
    }
    if forall n: nat :: KeptResults(nodes, n) {
      forall p | RefWalk(nodes, p)
        ensures NodeInertChildren(nodes[p[|p| - 1]])
      {
        assert KeptResults(nodes, |p|);
        KeptAlong(nodes, p, |p|, |p| - 1);
        KeptNodeInert(nodes, 1, nodes[p[|p| - 1]]);
      }
    }
  }

  /** A child graph keeps its meaning under a prefix, at every depth and in any scopes, when
      every node that references lead to from its results holds inert child graphs only. */
  lemma PrefixedChildTerm(owner: string, nodes: Scope, rest: map<string, Json>, out: Scope,
                          scope: Scope, scope': Scope, n: nat)
    requires IsPrefixed(owner, nodes, out) && Prefixable(nodes)
    ensures Resolve(scope', n, Child(out, map[])) == Resolve(scope, n, Child(nodes, rest))
  {
    hide *;
    PrefixableKept(nodes);
    PrefixedTermAt(owner, nodes, rest, out, scope, scope', n);
  }

  /** And of a self-contained child graph, exactly then. */
  lemma PrefixedChildExact(owner: string, nodes: Scope, rest: map<string, Json>, out: Scope, scope: Scope)
    requires IsPrefixed(owner, nodes, out) && SelfContained(nodes)
    ensures SameMeaning(scope, Child(nodes, rest), Child(out, map[])) <==> Prefixable(nodes)
  {
    hide KeptResults, Prefixable, IsPrefixed, SelfContained;
    PrefixableKept(nodes);
    forall n: nat
      ensures Resolve(scope, n, Child(out, map[])) == Resolve(scope, n, Child(nodes, rest)) <==> KeptResults(nodes, n)
    {
      PrefixedTermExactAt(owner, nodes, rest, out, scope, n);
    }
    if SameMeaning(scope, Child(nodes, rest), Child(out, map[])) {
      forall n: nat
        ensures KeptResults(nodes, n)
      {
        assert Resolve(scope, n, Child(out, map[])) == Resolve(scope, n, Child(nodes, rest));
      }
    }
    if Prefixable(nodes) {
      forall n: nat
        ensures Resolve(scope, n, Child(out, map[])) == Resolve(scope, n, Child(nodes, rest))
      {
        assert KeptResults(nodes, n);
      }
    }
  }

  // ----- A nested child graph that breaks -----

  /** A process node. */
  function Call(process: string, arg: Json, result: bool): Json {
    var call := map["process_id" := Str(process), "arguments" := Obj(map["data" := arg])];
    Obj(if result then call["result" := Bool(true)] else call)
  }

  /** A graph of two nodes, the second, its result, reading the first. */
  function InnerGraph(): Scope {
    map["band" := Call("array_element", Null, false), "abs" := Call("absolute", Ref("band"), true)]
  }

  /** A graph of one node, with that graph as its child. */
  function NestedGraph(): Scope {
    map["apply" := Call("apply", Child(InnerGraph(), map[]), true)]
  }

  lemma CallParts(process: string, arg: Json, result: bool, keys: set<string>)
    ensures IsResult(Call(process, arg, result)) <==> result
    ensures OwnRefs(Call(process, arg, result), keys) <==> OwnRefs(arg, keys)
    ensures Inert(Call(process, arg, result)) <==> Inert(arg)
    ensures NodeInertChildren(Call(process, arg, result)) <==> InertChildren(arg)
  {
    hide IsResult, OwnRefs, Inert, NodeInertChildren, Call;
    CallResult(process, arg, result);
    ArgParts(arg, keys);
    CallFieldParts(process, Obj(map["data" := arg]), result, keys);
  }

  lemma CallResult(process: string, arg: Json, result: bool)
    ensures IsResult(Call(process, arg, result)) <==> result
    ensures var fields := Call(process, arg, result).fields;
            fields.Keys - {"result"} == {"process_id", "arguments"} &&
            ("result" in fields ==> fields["result"] == Bool(true)) &&
            fields["process_id"] == Str(process) && fields["arguments"] == Obj(map["data" := arg])
  {
    assert |"result"| == 6 && |"process_id"| == 10 && |"arguments"| == 9;
  }

  lemma ArgParts(arg: Json, keys: set<string>)
    ensures var args := Obj(map["data" := arg]);
            (OwnRefs(args, keys) <==> OwnRefs(arg, keys)) && (Inert(args) <==> Inert(arg)) &&
            (InertChildren(args) <==> InertChildren(arg))
  {
    var args := map["data" := arg];
    assert args["data"] == arg;
  }

  lemma CallFieldParts(process: string, args: Json, result: bool, keys: set<string>)
    requires args.Obj? && args.fields.Keys == {"data"}
    ensures var call := Call(process, args.fields["data"], result);
            (OwnRefs(call, keys) <==> OwnRefs(args, keys)) && (Inert(call) <==> Inert(args)) &&
            (NodeInertChildren(call) <==> InertChildren(args))
  {
    assert args == Obj(map["data" := args.fields["data"]]);
    CallResult(process, args.fields["data"], result);
    var fields := Call(process, args.fields["data"], result).fields;
    forall k | k in fields
      ensures k == "arguments" || k == "process_id" || k == "result"
    {
      assert k in fields.Keys - {"result"} || k == "result";
    }
    assert "arguments" in fields.Keys - {"result"};
  }

  lemma InnerParts()
    ensures OwnRefs(Child(InnerGraph(), map[]), {}) && !Inert(Child(InnerGraph(), map[]))
  {
    hide Call, IsResult;
    var inner := InnerGraph();
    CallParts("array_element", Null, false, inner.Keys);
    CallParts("absolute", Ref("band"), true, inner.Keys);
    assert "band" in inner && "abs" in inner && inner.Keys == {"band", "abs"};
    assert CHILD_SEP !in "band" && CHILD_SEP !in "abs";
  }

  lemma NestedParts()
    ensures var nodes := NestedGraph();
            RefWalk(nodes, ["apply"]) && !NodeInertChildren(nodes["apply"]) && SelfContained(nodes)
  {
    hide Call, InnerGraph, NodeInertChildren, IsResult;
    var nodes, child := NestedGraph(), Child(InnerGraph(), map[]);
    InnerParts();
    CallParts("apply", child, true, nodes.Keys);
    OwnRefsOfChild(child, nodes.Keys);
    assert nodes.Keys == {"apply"} && nodes["apply"] == Call("apply", child, true);
    assert InertChildren(child) <==> Inert(child);
  }

  lemma OwnRefsOfChild(child: Json, keys: set<string>)
    requires child.Child?
    ensures OwnRefs(child, keys) <==> OwnRefs(child, {})
  {
  }

  /** A nested child graph that breaks: prefixed, the outer graph does not mean what it
      meant, because the inner reference is renamed and the inner key is not. */
  lemma NestedChildBreaks(owner: string, out: Scope, scope: Scope)
    requires IsPrefixed(owner, NestedGraph(), out)
    ensures SelfContained(NestedGraph())
    ensures !SameMeaning(scope, Child(NestedGraph(), map[]), Child(out, map[]))
  {
    hide NestedGraph, IsPrefixed, Resolve, SelfContained, RefWalk, NodeInertChildren;
    NestedParts();
    PrefixedChildExact(owner, NestedGraph(), map[], out, scope);
    assert RefWalk(NestedGraph(), ["apply"]);
  }

  // ----- Whole terms -----

  /** No reference was left unfollowed. */
  ghost predicate Whole(t: Term) {
    match t
    case TArr(items) => forall i :: 0 <= i < |items| ==> Whole(items[i])
    case TObj(fields) => forall k :: k in fields ==> Whole(fields[k])
    case TFun(results) => forall r :: r in results ==> Whole(r)
    case TCut => false
    case _ => true
  }

  /** A value in which no reference is followed is whole at every depth. */
  lemma {:induction false} InertWhole(scope: Scope, n: nat, j: Json)
    requires Inert(j)
    ensures Whole(Resolve(scope, n, j))
    decreases j
  {
    match j
    case Arr(items) =>
      forall i | 0 <= i < |items|
        ensures Whole(Resolve(scope, n, items[i]))
      {
        InertWhole(scope, n, items[i]);
      }
    case Obj(fields) =>
      forall k | k in fields
        ensures Whole(Resolve(scope, n, fields[k]))
      {
        InertWhole(scope, n, fields[k]);
      }
    case Child(nodes, _) =>
      forall k | k in nodes && IsResult(nodes[k])
        ensures Whole(NodeTerm(nodes, n, nodes[k]))
      {
        forall l | l in nodes[k].fields
          ensures Whole(Resolve(nodes, n, nodes[k].fields[l]))
        {
          InertWhole(nodes, n, nodes[k].fields[l]);
        }
      }
    case _ =>
  }

  // ----- Where a key points -----

  /** The owner of a key and, for a prefixed key, the child: split at the first separator. */
  function Locate(key: string): (string, Option<string>) {
    if key == [] then ("", None)
    else if key[0] == CHILD_SEP then ("", Some(key[1..]))
    else var (owner, child) := Locate(key[1..]); ([key[0]] + owner, child)
  }

  /** A diagnostic inside a child graph leads back to its node and child. */
  lemma {:induction false} LocateChild(owner: string, key: string)
    requires CHILD_SEP !in owner
    ensures Locate(ChildKey(owner, key)) == (owner, Some(key))
  {
    var whole := ChildKey(owner, key);
    if owner == [] {
      assert whole[1..] == key;
    } else {
      assert whole[1..] == ChildKey(owner[1..], key);
      LocateChild(owner[1..], key);
      assert [owner[0]] + owner[1..] == owner;
    }
  }

  lemma {:induction false} LocateNode(id: string)
    requires CHILD_SEP !in id
    ensures Locate(id) == (id, None)
  {
    if id != [] {
      LocateNode(id[1..]);
      assert [id[0]] + id[1..] == id;
    }
  }

  /** Among ids without the separator no two keys collide: child keys of different
      owners or children differ, and none is a node's own. */
  lemma KeysApart(owner: string, k: string, owner': string, k': string)
    requires CHILD_SEP !in owner && CHILD_SEP !in owner'
    ensures ChildKey(owner, k) == ChildKey(owner', k') ==> owner == owner' && k == k'
    ensures ChildKey(owner, k) != owner'
  {
    LocateChild(owner, k);
    LocateChild(owner', k');
    LocateNode(owner');
  }
}
