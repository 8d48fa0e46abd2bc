/** The output node, and the steps that do not lead to it. */
module Output {
  import opened Wrappers
  import opened Stages
  import opened Graph
  import opened Paths

  /** The output: the first `save_result`. */
  function OutputNode(nodes: seq<Node>): Option<Node> {
    if nodes == [] then None
    else if nodes[0].process.SaveResult? then Some(nodes[0])
    else OutputNode(nodes[1..])
  }

  predicate IsOutput(dag: Dag, id: Id) {
    OutputNode(dag.nodes).Some? && OutputNode(dag.nodes).value.id == id
  }

  lemma {:induction false} OutputNodeIn(nodes: seq<Node>)
    requires OutputNode(nodes).Some?
    ensures OutputNode(nodes).value in nodes && OutputNode(nodes).value.process.SaveResult?
  {
    if !nodes[0].process.SaveResult? {
      OutputNodeIn(nodes[1..]);
    }
  }

  lemma {:induction false} OutputNodeLast(nodes: seq<Node>, out: Node)
    requires out.process.SaveResult? && forall n :: n in nodes ==> !n.process.SaveResult?
    ensures OutputNode(nodes + [out]) == Some(out)
  {
    if nodes != [] {
      assert (nodes + [out])[1..] == nodes[1..] + [out];
      OutputNodeLast(nodes[1..], out);
    }
  }

  /** A step with no path to the output: every step, while there is no output. */
  ghost predicate IsOrphan(dag: Dag, id: Id) {
    match OutputNode(dag.nodes)
    case None => true
    case Some(out) => id != out.id && !Reach(dag.edges, id, out.id)
  }

  ghost function OrphansOf(dag: Dag, nodes: seq<Node>): seq<Id> {
    if nodes == [] then []
    else (if IsOrphan(dag, nodes[0].id) then [nodes[0].id] else []) + OrphansOf(dag, nodes[1..])
  }

  /** The orphans, in presentation order. */
  method Orphans(dag: Dag) returns (orphans: seq<Id>)
    ensures orphans == OrphansOf(dag, dag.nodes)
  {
    hide Reach;
    var out := OutputNode(dag.nodes);
    var nodes := dag.nodes;
    orphans := [];
    for i := 0 to |nodes|
      invariant orphans + OrphansOf(dag, nodes[i..]) == OrphansOf(dag, nodes)
    {
      var id := nodes[i].id;
      var orphan := out.None?;
      if out.Some? && id != out.value.id {
        var reached := Reaches(dag, id, out.value.id);
        orphan := !reached;
      }
      assert orphan <==> IsOrphan(dag, id);
      assert nodes[i..][1..] == nodes[i + 1..];
      if orphan {
        orphans := orphans + [id];
      }
    }
  }

  lemma {:induction false} OrphansMember(dag: Dag, nodes: seq<Node>, id: Id)
    ensures id in OrphansOf(dag, nodes) <==> IsOrphan(dag, id) && exists n :: n in nodes && n.id == id
  {
    hide IsOrphan;
    if nodes != [] {
      OrphansMember(dag, nodes[1..], id);
      assert forall n :: n in nodes <==> n == nodes[0] || n in nodes[1..];
    }
  }

  /** The output is the first of the canvas's `save_result` cards. */
  lemma {:induction false} OutputFirst(nodes: seq<Node>)
    ensures OutputNode(nodes) == None <==> forall n :: n in nodes ==> n.process != SaveResult
    ensures OutputNode(nodes).Some? ==>
      exists i :: 0 <= i < |nodes| && OutputNode(nodes) == Some(nodes[i]) && nodes[i].process == SaveResult &&
        forall j :: 0 <= j < i ==> nodes[j].process != SaveResult
  {
    if nodes != [] && !nodes[0].process.SaveResult? {
      OutputFirst(nodes[1..]);
      if OutputNode(nodes[1..]).Some? {
        var i :| 0 <= i < |nodes[1..]| && OutputNode(nodes[1..]) == Some(nodes[1..][i]) &&
                 nodes[1..][i].process == SaveResult && forall j :: 0 <= j < i ==> nodes[1..][j].process != SaveResult;
        assert nodes[i + 1] == nodes[1..][i];
        assert forall j :: 0 < j < i + 1 ==> nodes[j] == nodes[1..][j - 1];
      }
    }
  }

  /** Some walk along the edges leads from `id` to `out`. */
  ghost predicate LeadsTo(es: seq<Edge>, id: Id, out: Id) {
    exists p :: IsPath(es, p) && p[0] == id && p[|p| - 1] == out
  }

  /** A card is an orphan exactly when the canvas has no output, or no walk leads from the card
      to it. */
  lemma OrphanExactly(dag: Dag, id: Id)
    ensures IsOrphan(dag, id) <==>
      OutputNode(dag.nodes) == None || !LeadsTo(dag.edges, id, OutputNode(dag.nodes).value.id)
  {
    if OutputNode(dag.nodes).Some? {
      ReachRefl(dag.edges, OutputNode(dag.nodes).value.id);
    }
  }
}
