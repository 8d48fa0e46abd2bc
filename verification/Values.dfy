/** Evaluating lowered graphs: the terms they denote are whole at a bounded depth, evaluate
    as the port wiring says, and their keys do not collide. */
module Values {
  import opened Wrappers
  import opened Graph
  import opened Json
  import opened Paths
  import opened Typing
  import opened Ordering
  import opened Layout
  import opened Output
  import opened Lowering

  // ----- Whole terms -----

  /** Every parameter's own references end within `m`. */
  ghost predicate ParamsWhole(dag: Dag, scope: Scope, m: nat) {
    forall node, k, n: nat :: node in dag.nodes && k in node.params && n >= m ==>
      Whole(Resolve(scope, n, node.params[k]))
  }

  lemma PathFits(dag: Dag, p: seq<Id>)
    requires WellFormed(dag) && Acyclic(dag.edges) && IsPath(dag.edges, p) && NodeOf(dag.nodes, p[|p| - 1]).Some?
    ensures |p| <= |dag.nodes|
  {
    hide WellFormed, IsPath;
    WellFormedEnds(dag);
    if |p| > |dag.nodes| {
      NodeOfIn(dag.nodes, p[|p| - 1]);
      assert PathTo(dag.edges, p, p[|p| - 1]) && p[|p| - 1] in Ids(dag);
      IdsBound(dag);
      var c := LongPathCycles(dag, p);
      AcyclicNoClosedWalk(dag.edges);
    }
  }

  /** Followed one node deeper for each node of the longest path down, nothing is cut. */
  lemma {:induction false} WholeAlong(dag: Dag, scope: Scope, m: nat, n: nat, p: seq<Id>)
    requires WellFormed(dag) && Acyclic(dag.edges) && ParamsWhole(dag, scope, m)
    requires IsPath(dag.edges, p) && NodeOf(dag.nodes, p[0]).Some? && NodeOf(dag.nodes, p[|p| - 1]).Some?
    requires n + |p| > |dag.nodes| + m
    ensures n > m && Whole(DagTerm(dag, scope, n, p[0]))
    decreases n, 1
  {
    hide WellFormed, NodeValue, Linked, Acyclic, ParamsWhole, Whole, NodeOf;
    PathFits(dag, p);
    WholeNode(dag, scope, m, n - 1, p);
    assert DagTerm(dag, scope, n, p[0]) == NodeValue(dag, scope, n - 1, NodeOf(dag.nodes, p[0]).value) by {
      FoundId(dag.nodes, p[0]);
    }
  }

  lemma {:induction false} WholeNode(dag: Dag, scope: Scope, m: nat, n: nat, p: seq<Id>)
    requires WellFormed(dag) && Acyclic(dag.edges) && ParamsWhole(dag, scope, m)
    requires IsPath(dag.edges, p) && NodeOf(dag.nodes, p[0]).Some? && NodeOf(dag.nodes, p[|p| - 1]).Some?
    requires n >= m && n + 1 + |p| > |dag.nodes| + m
    ensures Whole(NodeValue(dag, scope, n, NodeOf(dag.nodes, p[0]).value))
    decreases n, 3
  {
    hide WellFormed, Acyclic, Whole, ParamsWhole, ArgTerm, ArgNames, CallTerm, Linked;
    var node := NodeOf(dag.nodes, p[0]).value;
    forall k | k in ArgNames(dag, node)
      ensures Whole(ArgTerm(dag, scope, n, node, k))
    {
      WholeArg(dag, scope, m, n, p, k);
    }
    CallWhole(node.process, ArgTerms(dag, scope, n, node));
  }

  lemma {:induction false} WholeArg(dag: Dag, scope: Scope, m: nat, n: nat, p: seq<Id>, k: string)
    requires WellFormed(dag) && Acyclic(dag.edges) && ParamsWhole(dag, scope, m)
    requires IsPath(dag.edges, p) && NodeOf(dag.nodes, p[0]).Some? && NodeOf(dag.nodes, p[|p| - 1]).Some?
    requires n >= m && n + 1 + |p| > |dag.nodes| + m
    requires k in ArgNames(dag, NodeOf(dag.nodes, p[0]).value)
    ensures Whole(ArgTerm(dag, scope, n, NodeOf(dag.nodes, p[0]).value, k))
    decreases n, 2
  {
    hide WellFormed, Acyclic, DagTerm, FedSource, FedNames, Linked;
    var node := NodeOf(dag.nodes, p[0]).value;
    NodeOfIn(dag.nodes, p[0]);
    var fed := FedSource(dag, node, k);
    if fed.Some? {
      FedLinked(dag, node, k);
      PathBack(dag.edges, fed.value, p);
      WholeAlong(dag, scope, m, n, [fed.value] + p);
    }
  }

  lemma FoundId(nodes: seq<Node>, id: Id)
    ensures NodeOf(nodes, id).Some? ==> NodeOf(nodes, id).value.id == id
  {
  }

  lemma FedLinked(dag: Dag, node: Node, k: string)
    requires WellFormed(dag) && FedSource(dag, node, k).Some?
    ensures Linked(dag.edges, FedSource(dag, node, k).value, node.id)
    ensures NodeOf(dag.nodes, FedSource(dag, node, k).value).Some?
  {
    var port := PortNamed(Inputs(node.process), k).value;
    FeedingIn(dag.edges, node.id, port);
    assert EdgeFits(dag.nodes, Feeding(dag.edges, node.id, port).value);
  }

  lemma PathBack(es: seq<Edge>, a: Id, p: seq<Id>)
    requires IsPath(es, p) && Linked(es, a, p[0])
    ensures IsPath(es, [a] + p)
  {
    hide Linked;
    var q := [a] + p;
    forall i | 0 <= i < |q| - 1
      ensures Linked(es, q[i], q[i + 1])
    {
      if i > 0 { assert Linked(es, p[i - 1], p[i - 1 + 1]); }
    }
  }

  lemma CallWhole(p: Stages.Process, args: map<string, Term>)
    requires forall k :: k in args ==> Whole(args[k])
    ensures Whole(CallTerm(p, args))
  {
    hide ProcessName;
    var call := CallTerm(p, args);
    assert call.fields["arguments"] == TObj(args) && call.fields["process_id"] == TStr(ProcessName(p));
  }

  /** On an acyclic graph the value of a step is whole once followed as deep as there are
      steps, and as deep as its parameters' own references lead. */
  lemma AcyclicWhole(dag: Dag, scope: Scope, m: nat, id: Id)
    requires WellFormed(dag) && Acyclic(dag.edges) && ParamsWhole(dag, scope, m) && NodeOf(dag.nodes, id).Some?
    ensures Whole(DagTerm(dag, scope, |dag.nodes| + m, id))
  {
    hide WellFormed, Acyclic, ParamsWhole, DagTerm, Whole;
    assert IsPath(dag.edges, [id]);
    WholeAlong(dag, scope, m, |dag.nodes| + m, [id]);
  }

  // ----- Evaluation -----

  /** An evaluator: what it makes of each form of a term. */
  datatype Algebra<!V> = Algebra(nothing: V, truth: bool -> V, num: string -> V, str: string -> V,
                                 arr: seq<V> -> V, obj: map<string, V> -> V, fun: set<V> -> V,
                                 dangling: V, cut: V)

  ghost function Value<V>(alg: Algebra<V>, t: Term): V {
    match t
    case TNull => alg.nothing
    case TBool(b) => alg.truth(b)
    case TNum(text) => alg.num(text)
    case TStr(s) => alg.str(s)
    case TArr(items) => alg.arr(seq(|items|, i requires 0 <= i < |items| => Value(alg, items[i])))
    case TObj(fields) => alg.obj(map k | k in fields :: Value(alg, fields[k]))
    case TFun(results) => alg.fun(set r | r in results :: Value(alg, r))
    case TDangling => alg.dangling
    case TCut => alg.cut
  }

  /** The value of a whole term does not depend on how deep references are followed. */
  lemma {:induction false} WholeUncut<V>(alg: Algebra<V>, cut: V, t: Term)
    requires Whole(t)
    ensures Value(alg.(cut := cut), t) == Value(alg, t)
    decreases t
  {
    var alg' := alg.(cut := cut);
    match t
    case TArr(items) =>
      forall i | 0 <= i < |items|
        ensures Value(alg', items[i]) == Value(alg, items[i])
      {
        WholeUncut(alg, cut, items[i]);
      }
      assert seq(|items|, i requires 0 <= i < |items| => Value(alg', items[i]))
          == seq(|items|, i requires 0 <= i < |items| => Value(alg, items[i]));
    case TObj(fields) =>
      forall k | k in fields
        ensures Value(alg', fields[k]) == Value(alg, fields[k])
      {
        WholeUncut(alg, cut, fields[k]);
      }
      assert (map k | k in fields :: Value(alg', fields[k])) == map k | k in fields :: Value(alg, fields[k]);
    case TFun(results) =>
      forall r | r in results
        ensures Value(alg', r) == Value(alg, r)
      {
        WholeUncut(alg, cut, r);
      }
      assert (set r | r in results :: Value(alg', r)) == set r | r in results :: Value(alg, r);
    case _ =>
  }

  /** The value of a step, evaluated along the port wiring. */
  ghost function StepValue<V>(alg: Algebra<V>, dag: Dag, scope: Scope, n: nat, id: Id): V
    decreases n, 0
  {
    if n == 0 then alg.cut
    else
      match NodeOf(dag.nodes, id)
      case None => alg.dangling
      case Some(node) => Applied(alg, dag, scope, n - 1, node)
  }

  /** The value of an argument: of the step feeding the port of that name, or else of the
      parameter. */
  ghost function ArgValue<V>(alg: Algebra<V>, dag: Dag, scope: Scope, n: nat, node: Node, k: string): V
    decreases n, 1
  {
    var fed := FedSource(dag, node, k);
    if fed.Some? then StepValue(alg, dag, scope, n, fed.value)
    else if k in node.params then Value(alg, Resolve(scope, n, node.params[k]))
    else alg.dangling
  }

  /** A step's process, applied to the values of its arguments. */
  ghost function Applied<V>(alg: Algebra<V>, dag: Dag, scope: Scope, n: nat, node: Node): V
    decreases n, 2
  {
    Called(alg, ProcessName(node.process), map k | k in ArgNames(dag, node) :: ArgValue(alg, dag, scope, n, node, k))
  }

  ghost function Called<V>(alg: Algebra<V>, process: string, args: map<string, V>): V {
    alg.obj(map["process_id" := alg.str(process), "arguments" := alg.obj(args)])
  }

  ghost function Valued<V>(alg: Algebra<V>, args: map<string, Term>): map<string, V> {
    map k | k in args :: Value(alg, args[k])
  }

  lemma {:induction false} StepValueOf<V>(alg: Algebra<V>, dag: Dag, scope: Scope, n: nat, id: Id)
    ensures StepValue(alg, dag, scope, n, id) == Value(alg, DagTerm(dag, scope, n, id))
    decreases n, 0
  {
    hide NodeValue, Applied;
    if n > 0 && NodeOf(dag.nodes, id).Some? {
      AppliedOf(alg, dag, scope, n - 1, NodeOf(dag.nodes, id).value);
    }
  }

  lemma {:induction false} ArgValueOf<V>(alg: Algebra<V>, dag: Dag, scope: Scope, n: nat, node: Node, k: string)
    requires k in ArgNames(dag, node)
    ensures ArgValue(alg, dag, scope, n, node, k) == Value(alg, ArgTerm(dag, scope, n, node, k))
    decreases n, 1
  {
    hide DagTerm, StepValue, FedSource, ArgNames, Resolve;
    if FedSource(dag, node, k).Some? { StepValueOf(alg, dag, scope, n, FedSource(dag, node, k).value); }
  }

  lemma {:induction false} AppliedOf<V>(alg: Algebra<V>, dag: Dag, scope: Scope, n: nat, node: Node)
    ensures Applied(alg, dag, scope, n, node) == Value(alg, NodeValue(dag, scope, n, node))
    decreases n, 2
  {
    hide ArgTerm, ArgValue, ArgNames, ProcessName, Value, CallTerm, Called;
    var terms := ArgTerms(dag, scope, n, node);
    forall k | k in ArgNames(dag, node)
      ensures ArgValue(alg, dag, scope, n, node, k) == Value(alg, ArgTerm(dag, scope, n, node, k))
    {
      ArgValueOf(alg, dag, scope, n, node, k);
    }
    CallValue(alg, node.process, terms);
    assert Valued(alg, terms) == map k | k in ArgNames(dag, node) :: ArgValue(alg, dag, scope, n, node, k);
  }

  lemma ObjValue<V>(alg: Algebra<V>, fields: map<string, Term>)
    ensures Value(alg, TObj(fields)) == alg.obj(Valued(alg, fields))
  {
    var values := map k | k in fields :: Value(alg, fields[k]);
    assert Value(alg, TObj(fields)) == alg.obj(values);
    assert values == Valued(alg, fields);
  }

  lemma CallValue<V>(alg: Algebra<V>, p: Stages.Process, args: map<string, Term>)
    ensures Value(alg, CallTerm(p, args)) == Called(alg, ProcessName(p), Valued(alg, args))
  {
    hide ProcessName;
    var fields := CallTerm(p, args).fields;
    ObjValue(alg, fields);
    ObjValue(alg, args);
    assert fields["arguments"] == TObj(args) && fields["process_id"] == TStr(ProcessName(p));
    assert fields.Keys == {"process_id", "arguments"};
    assert Valued(alg, fields)
        == map["process_id" := alg.str(ProcessName(p)), "arguments" := alg.obj(Valued(alg, args))];
  }

  /** Evaluating the lowered graph of an acyclic canvas, by any evaluator, is evaluating the
      output step along the port wiring; and it is a value in earnest: nothing is cut. */
  lemma LoweredEvaluates<V>(alg: Algebra<V>, dag: Dag, graph: Scope, scope: Scope, m: nat, cut: V)
    requires WellFormed(dag) && Acyclic(dag.edges) && Lowers(dag, graph) && OutputNode(dag.nodes).Some?
    requires ParamsWhole(dag, graph, m) && forall node :: node in dag.nodes ==> ParamsLowerable(node)
    ensures var n := |dag.nodes| + m;
            var value := Value(alg, Resolve(scope, n, Child(graph, map[])));
            value == alg.fun({Applied(alg, dag, graph, n, OutputNode(dag.nodes).value)}) &&
            value == Value(alg.(cut := cut), Resolve(scope, n, Child(graph, map[])))
  {
    hide WellFormed, Acyclic, Lowers, ParamsWhole, ParamsLowerable, Applied, NodeValue, Resolve, Whole, NodeOf;
    var n, out := |dag.nodes| + m, OutputNode(dag.nodes).value;
    LoweredGraphTerm(dag, graph, n, scope);
    OutputNodeIn(dag.nodes);
    OutputFound(dag, out);
    WholeNode(dag, graph, m, n, [out.id]);
    AppliedOf(alg, dag, graph, n, out);
    var t := NodeValue(dag, graph, n, out);
    OneFunction(alg, t);
    OneFunction(alg.(cut := cut), t);
    WholeUncut(alg, cut, t);
  }

  ghost function ValuesOf<V>(alg: Algebra<V>, results: set<Term>): set<V> {
    set r | r in results :: Value(alg, r)
  }

  lemma FunValue<V>(alg: Algebra<V>, results: set<Term>)
    ensures Value(alg, TFun(results)) == alg.fun(ValuesOf(alg, results))
  {
    match TFun(results)
    case TFun(rs) =>
      var values := set r | r in rs :: Value(alg, r);
      assert Value(alg, TFun(rs)) == alg.fun(values);
      assert values == ValuesOf(alg, results);
  }

  lemma OneFunction<V>(alg: Algebra<V>, t: Term)
    ensures Value(alg, TFun({t})) == alg.fun({Value(alg, t)})
  {
    FunValue(alg, {t});
    assert ValuesOf(alg, {t}) == {Value(alg, t)};
  }

  lemma OutputFound(dag: Dag, out: Node)
    requires WellFormed(dag) && out in dag.nodes
    ensures NodeOf(dag.nodes, out.id) == Some(out) && IsPath(dag.edges, [out.id])
  {
    NodeOfUnique(dag.nodes, out);
  }

  // ----- Keys -----

  /** `key` is a key of the child graph that lowered node `id` has as argument `p`. */
  ghost predicate ChildKeyOf(graph: Scope, id: Id, p: string, key: string) {
    id in graph && graph[id].Obj? && "arguments" in graph[id].fields && graph[id].fields["arguments"].Obj? &&
    p in graph[id].fields["arguments"].fields && graph[id].fields["arguments"].fields[p].Child? &&
    key in graph[id].fields["arguments"].fields[p].nodes
  }

  /** `k` is a key of the child graph that is parameter `p` of the node, no fed port taking
      its place. */
  predicate ParamKeyOf(dag: Dag, node: Node, p: string, k: string) {
    p in node.params && node.params[p].Child? && k in node.params[p].nodes && FedSource(dag, node, p).None?
  }

  /** The keys of lowered child graphs are the parameters' own, under their owner's prefix. */
  lemma LoweredChildKeys(dag: Dag, graph: Scope, node: Node, p: string, key: string)
    requires WellFormed(dag) && Lowers(dag, graph) && node in Order(dag)
    ensures ChildKeyOf(graph, node.id, p, key) <==>
      exists k :: ParamKeyOf(dag, node, p, k) && key == ChildKey(node.id, k)
  {
    hide Order, WellFormed, LoweredNode, LowersArgs, IsOutput, FedSource;
    var args :|
      LowersArgs(dag, node, args) && graph[node.id] == LoweredNode(node.process, args, IsOutput(dag, node.id));
    LoweredArguments(node.process, args, IsOutput(dag, node.id));
    ArgChildKeys(dag, node, args, p, key);
  }

  lemma LoweredArguments(p: Stages.Process, args: map<string, Json>, result: bool)
    ensures var j := LoweredNode(p, args, result);
            j.Obj? && "arguments" in j.fields && j.fields["arguments"] == Obj(args)
  {
    LoweredFields(p, args, result);
    assert "arguments" in LoweredNode(p, args, result).fields.Keys - {"result"};
  }

  lemma ArgChildKeys(dag: Dag, node: Node, args: map<string, Json>, p: string, key: string)
    requires LowersArgs(dag, node, args)
    ensures (p in args && args[p].Child? && key in args[p].nodes)
       <==> exists k :: ParamKeyOf(dag, node, p, k) && key == ChildKey(node.id, k)
  {
    FedNamed(dag, node, p);
    if FedSource(dag, node, p).Some? {
      FedArgIsRef(dag, node, args, p);
    } else if p in node.params {
      hide FedNames, FedSource, ChildKey;
      assert LowersParam(node.id, node.params[p], args[p]);
    }
  }

  lemma FedArgIsRef(dag: Dag, node: Node, args: map<string, Json>, p: string)
    requires LowersArgs(dag, node, args) && FedSource(dag, node, p).Some?
    ensures p in args && args[p].Ref?
  {
    FedNamed(dag, node, p);
    var port := PortNamed(Inputs(node.process), p).value;
    assert PortArg(dag.edges, node.id, port) == Some(args[PortName(port)]);
  }

  /** For ids without the separator: a key of a lowered child graph is no node's key, and no
      key of another node's child graph. */
  lemma LoweredKeysApart(dag: Dag, graph: Scope, x: Node, p: string, y: Node, q: string, key: string)
    requires WellFormed(dag) && Lowers(dag, graph) && x in Order(dag) && y in Order(dag)
    requires forall n :: n in dag.nodes ==> CHILD_SEP !in n.id
    requires ChildKeyOf(graph, x.id, p, key)
    ensures key !in graph
    ensures ChildKeyOf(graph, y.id, q, key) ==> x == y
  {
    hide Order, WellFormed, ChildKeyOf, LowersNode;
    OrderedNode(dag, x);
    OrderedNode(dag, y);
    LoweredChildKeys(dag, graph, x, p, key);
    LoweredChildKeys(dag, graph, y, q, key);
    var k :| key == ChildKey(x.id, k);
    if key in graph {
      var n :| n in Order(dag) && n.id == key;
      OrderedNode(dag, n);
      KeysApart(x.id, k, n.id, k);
    }
    if ChildKeyOf(graph, y.id, q, key) {
      var l :| key == ChildKey(y.id, l);
      KeysApart(x.id, k, y.id, l);
    }
  }

  /** Two child graphs of one node share a key once lowered exactly when they shared one. */
  lemma OwnerKeysShared(dag: Dag, graph: Scope, x: Node, p: string, q: string)
    requires WellFormed(dag) && Lowers(dag, graph) && x in Order(dag)
    ensures (exists key :: ChildKeyOf(graph, x.id, p, key) && ChildKeyOf(graph, x.id, q, key))
       <==> (exists k :: ParamKeyOf(dag, x, p, k) && ParamKeyOf(dag, x, q, k))
  {
    hide Order, WellFormed, ChildKeyOf, ParamKeyOf, Lowers;
    if key :| ChildKeyOf(graph, x.id, p, key) && ChildKeyOf(graph, x.id, q, key) {
      LoweredChildKeys(dag, graph, x, p, key);
      LoweredChildKeys(dag, graph, x, q, key);
      var k :| ParamKeyOf(dag, x, p, k) && key == ChildKey(x.id, k);
      var l :| ParamKeyOf(dag, x, q, l) && key == ChildKey(x.id, l);
      ChildKeyInjective(x.id, k, l);
    }
    if k :| ParamKeyOf(dag, x, p, k) && ParamKeyOf(dag, x, q, k) {
      LoweredChildKeys(dag, graph, x, p, ChildKey(x.id, k));
      LoweredChildKeys(dag, graph, x, q, ChildKey(x.id, k));
    }
  }
}
