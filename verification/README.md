# Swath authoring: verification model

A Dafny model of the parts of the Swath web client whose correctness is hard to see by
reading: the typed authoring graph and its lowering to openEO process graphs (the "Process
Graphs" section of the openEO API 1.2.0), the formula builder, the panel's edits of the
graph, the URL codec of the app state, the x-ray trace store and feed, and the preview queue.

The graph. A step is a node with a process, parameters and named input ports; edges feed
ports. *Well-formed wiring* (`Graph.WellFormed`) is the standing assumption, defined once:
unique ids, known processes, edges from an output to a named input of nodes on the canvas,
no port fed twice. What it means for a node to type is defined by finite derivations
(`Typing.Derives`), apart from the memoised typer that decides it; what a lowered graph means
is defined by following its references (`Json.Resolve`), apart from the reading of the port
wiring (`Lowering.DagTerm`), and by running it as the server does, by the process ids and
argument names written in it (`Evaluation.Run`). Meanings are terms, so graphs with equal terms
have equal values under every evaluator that computes a node from the values of its arguments;
depths bound how far references are followed, every statement holds at every depth, and on
acyclic graphs a bounded depth follows them all (`Values.AcyclicWhole`).

The form follows the source. Loops over local state are methods with invariants, proved
against a specification function or a property stated outright; objects whose fields change
are classes (`Typing.Typer`, `Panel.Panel`, `FormulaEdits.Card`, `TraceStore.Overlay`,
`TraceFeed.Feed`, `Previews.Catalog`); expressions are functions. What holds over whole runs
is proved of the specification functions by induction over the run.

| module | of the source |
|---|---|
| Stages, Graph, Typing, Heads, Admission | stages, ports, the typer, the first-input walks, the edge-admission rule |
| Paths, Ordering, Layout, Output | reachability, the topological ordering, layout depth, orphans |
| Json, Lowering, Values, Evaluation | process graphs, their lowering, and what running them gives |
| Truncation, Preview | the pipeline up to a step, and what the preview shows |
| Edits, Branching, Removal, Joining, Panel | the panel's edits, on edge lists, on whole graphs, on types, and as state |
| Lineage, Discipline, Palette, Template | typing by the steps a cube has passed, the shape of typed paths, what may be spliced on an edge, the NDVI template |
| Menu, History | the edits the panel offers, and runs of them: those that keep types, and all |
| Pitfalls | canvases on which edits leave a step without a type, a loop, or an edge without ends |
| Formula, FormulaEdits | the formula compiler, and the editing of its lines |
| Percent, Query, Calendar, AppState | percent-encoding, query strings, dates, the app state in them |
| Compare, TraceStore, TraceFeed | compare sides, the trace store, the feed |
| Previews | the preview queue |
| Wrappers, Decimals | optional values, numerals |

Where the code is weaker than its comments the code is modelled, and the exact condition
under which the comment is right is proved:

- Removing a step (web/src/swath-authoring-panel.ts:1021-1034) does not keep types.
  `Removal.RemovalKeepsTypes`: of the cards of a well-typed graph, exactly those that feed
  nothing and one-in one-out date filters can be removed with every other type unchanged.
  `Removal.ReduceBeforeJoin`, and on a canvas `Pitfalls.ReduceDropped`: taking a reducing step
  out before a join leaves the join without a type.
- Removing a step that has one input and one output, both the same edge, leaves that edge
  behind without a card at either end; every other removal keeps the wiring well-formed:
  `Branching.RemoveKeepsWellFormed`. `Pitfalls.LoopLeftBehind` is a run of the panel's edits
  that ends so, through the loop the join offer lets it close.
- The join offer (web/src/swath-authoring-panel.ts:2283-2306) compares kinds only, and does not
  ask whether the first step leads to the second. `Pitfalls.JoinOfferUntyped` and
  `Pitfalls.JoinOfferLoops` are pipelines it lets through although the join does not type, or
  closes a loop; `Joining.JoinTypesWhen`, `Joining.JoinKeepsTypes` and `Edits.JoinAcyclic` say
  exactly when joining gives a typed join, a well-typed graph and an acyclic one.
- So the panel can reach a cyclic canvas. `History.EveryHistoryAcyclic`: a run of edits,
  whatever they do to types, keeps every canvas acyclic exactly when no join's first step led to
  its second.
- The comment on rechecking in the admission rule (web/src/authoring-dag.ts:265-266) speaks of
  nodes that stopped typing; the code refuses on any untyped fully fed node downstream. On valid
  graphs the two are the same: `Admission.OnlyTargetRetyped`, `Admission.EdgeRuleExact`.
- Prefixing a child graph (web/src/authoring-dag.ts:607-634) renames references deeply and keys
  one level only. The graphs the panel compiles itself nest no others and keep their meaning;
  a typed JSON parameter (web/src/openeo-schema.ts:110-111) may hold graphs nested in graphs.
  `Json.PrefixedChildExact`: a self-contained child graph keeps its meaning exactly when every
  node that references lead to from its results holds only child graphs in whose results no
  reference stands. `Json.NestedChildBreaks` is one that does not.
- The comment on removing a formula line (web/src/swath-authoring-panel.ts:3042-3043) says
  references at or past the line are reset; the code resets those to it and decrements those
  past it.
- Writing the app state throws exactly when the name of some pair holds a percent sign that
  does not begin the escapes of a whole UTF-8 character: `AppState.WritesExactly`,
  `AppState.LonePercentThrows`.
- Branches are started into any free port (web/src/swath-authoring-panel.ts:1040), but only
  some steps take the gray cube they bring: `Menu.BranchTypesWhen`, `Pitfalls.BranchIntoReduce`.
- At most one undecided preview per key holds while the cache is not cleared
  (`Previews.OneJobPerKey`), and clearing it (web/src/swath-catalog.ts:64-66) keeps it exactly
  while no job is open: `Previews.ClearHarmless`, `Previews.OneOpenPerKey`.

## Model

| member | source | states |
|---|---|---|
| Lowering.LowerPreserves | web/src/authoring-dag.ts:575-596 | Following `from_node` references through the lowered graph gives every lowered node the value its port wiring gives it, to every depth, on any well-formed graph whose child graphs are prefixable (`Json.Prefixable`, exact by `Json.PrefixedChildExact`); references that parameters hold themselves are copied verbatim and read in the lowered graph |
| Lowering.LoweredGraphTerm | web/src/authoring-dag.ts:575-596 | On an acyclic such graph the whole lowered graph denotes the value of the output node, and of nothing else: exactly one node is marked as the result |
| Values.LoweredEvaluates | web/src/authoring-dag.ts:575-596 | Evaluating the lowered graph, by any evaluator of terms, is evaluating the output step along the port wiring; at a depth of the number of steps and the parameters' own no reference is left unfollowed, so the value does not depend on what an unfollowed one is worth |
| Values.AcyclicWhole | web/src/authoring-dag.ts:575-596 | On an acyclic graph the value of a step leaves no reference unfollowed at a depth of the number of steps and the parameters' own |
| Evaluation.LoweredRuns | web/src/authoring-dag.ts:575-596 | Running any entry of the lowered graph as the server reads it, by the process ids and argument names written in it (`merge_cubes` takes `cube1` and `cube2`, `linear_scale_range` takes `x`, every other step `data`), gives what its process makes of the cubes its ports are fed, to every depth |
| Evaluation.LoweredGraphRuns | web/src/authoring-dag.ts:575-596 | The lowered graph of an acyclic canvas has one result, and running it gives what `save_result` makes of the cube the output card is fed |
| Evaluation.RunDispatches | web/src/authoring-dag.ts:589-589 | The process id written for a step runs that step's process |
| Evaluation.PortTable | web/src/authoring-dag.ts:61-72 | The ports are those of the table of cube ports by process id: their argument names in order, and whether there is an output |
| Lowering.CubesUnderNames | web/src/authoring-dag.ts:583-588 | Each fed cube stands under the argument its process reads it by, as a reference to the step that feeds it |
| Values.LoweredChildKeys | web/src/authoring-dag.ts:607-616 | The keys of a lowered child graph are exactly the parameter's own under their owner's prefix |
| Values.LoweredKeysApart | web/src/authoring-dag.ts:575-616 | For ids without the separator no key of a lowered child graph is a node's, or is in another node's child graphs |
| Values.OwnerKeysShared | web/src/authoring-dag.ts:575-616 | Two child graphs of one node share a key once lowered exactly when they shared one before |
| Lowering.LowersEveryNode | web/src/authoring-dag.ts:575-596 | On an acyclic graph the lowered keys are exactly the ids on the canvas |
| Lowering.MarkedResult | web/src/authoring-dag.ts:590-592 | A lowered node is marked as the result exactly when it is the output |
| Lowering.Lower | web/src/authoring-dag.ts:575-596 | Lowers along the ordering, one entry per ordered node: a fed port overrides a parameter of its name, child graphs are prefixed, everything else is verbatim; `Evaluation.LoweredRuns` says what the entries compute |
| Lowering.LowerArgs | web/src/authoring-dag.ts:579-588 | The arguments of one node: parameters first, then a reference for each fed port over them, a join's under `cube1` and `cube2`, a scale's under `x`, any other's under `data` |
| Lowering.LowerParams | web/src/authoring-dag.ts:580-582 | Each parameter under its own name, child graphs under the owner's prefix |
| Lowering.PortNamesApart | web/src/authoring-dag.ts:61-72 | No two ports of a process lower to the same argument |
| Json.PrefixPreserves | web/src/authoring-dag.ts:607-634 | A rewritten value means in the prefixed graph what it meant in the graph, as deep as the references lead to inert child graphs only |
| Json.PrefixedChildTerm | web/src/authoring-dag.ts:607-616 | A prefixed child graph denotes the same function, whatever graph surrounds either, when every node that references lead to from its results holds inert child graphs only |
| Json.PrefixedChildExact | web/src/authoring-dag.ts:607-634 | A self-contained child graph, however deeply others nest in it, keeps its meaning under the prefix at every depth exactly then |
| Json.NestedExact | web/src/authoring-dag.ts:618-634 | A nested child graph keeps its meaning under the deep renaming exactly when no reference stands in its result nodes, outside deeper child graphs and recursively in theirs |
| Json.PrefixableKept | web/src/authoring-dag.ts:607-634 | The condition read as reachability: kept at every depth exactly when every node that references lead to from a result holds inert child graphs only |
| Json.PrefixChild | web/src/authoring-dag.ts:607-616 | Fills the prefixed graph: every key and every reference under the owner's prefix, and no other key |
| Json.PrefixedUnique | web/src/authoring-dag.ts:607-616 | That description determines the prefixed graph |
| Json.ChildKeyInjective | web/src/authoring-dag.ts:607-616 | Prefixing is injective on keys |
| Json.KeysApart | web/src/authoring-dag.ts:530-530 | As strings: prefixed keys of ids without the separator differ for different owners or children, and from every such id |
| Json.NestedChildBreaks | web/src/authoring-dag.ts:607-634 | A graph of process nodes with a child graph of two in it, the second reading the first, does not mean the same once prefixed |
| Json.LocateChild | web/src/authoring-dag.ts:639-653 | Splitting a prefixed key at the separator gives back its owner and child |
| Json.ChildKeyText | web/src/authoring-dag.ts:530-530 | A child's key is its owner's id, a full stop and its own key |
| Json.LocateNode | web/src/authoring-dag.ts:639-653 | Splitting a plain id gives the id and no child |
| Typing.TypIsDerivable | web/src/authoring-dag.ts:147-175 | A node has a stage exactly when a finite derivation through its fed ports gives it that stage |
| Typing.TypRule | web/src/authoring-dag.ts:147-175 | The stages are a fixed point of the rules: a node's stage is its process applied to the stages of what feeds it |
| Typing.Typer.TypeOf | web/src/authoring-dag.ts:147-175 | On every finite graph, cyclic or not, and after any earlier queries, the memoised typer answers with exactly the derivable stage, and terminates |
| Typing.Typer.Visit | web/src/authoring-dag.ts:150-173 | The recursive visit answers rightly inside open visits too: the null for a node being visited is its type |
| Typing.Typer.VisitInputs | web/src/authoring-dag.ts:164-168 | The stages of a node's inputs in port order, none for an unfed port |
| Typing.Typer.constructor | web/src/authoring-dag.ts:147-150 | A new typer remembers nothing |
| Typing.CycleUntyped | web/src/authoring-dag.ts:155-157 | A node on a feed cycle has no stage |
| Typing.RevisitUntyped | web/src/authoring-dag.ts:155-157 | A node that waits on its own visit has no stage |
| Typing.WellTyped | web/src/authoring-dag.ts:179-183 | True exactly when every node types |
| Typing.WellTypedAcyclic | web/src/authoring-dag.ts:179-183 | A graph that types has no feed cycle |
| Typing.EdgeFrame | web/src/authoring-dag.ts:226-283 | A new edge can change the type only of what its target reaches |
| Typing.TypCongruence | web/src/authoring-dag.ts:147-175 | Two graphs wired alike on a set of nodes closed under sources give those nodes the same types |
| Typing.LinkedNeeds | web/src/authoring-dag.ts:132-135 | On well-formed wiring the edges are exactly the feeds the typer follows |
| Graph.FeedingUnique | web/src/authoring-dag.ts:132-135 | On well-formed wiring the first match is the only one |
| Graph.NodeOfUnique | web/src/authoring-dag.ts:137-139 | With unique ids the first match is the only one |
| Admission.EdgeAllowed | web/src/authoring-dag.ts:226-283 | The verdict of the rule, its checks in order, with one typer answering every query on the candidate |
| Admission.AllowedWhen | web/src/authoring-dag.ts:226-283 | On a valid graph an edge is accepted exactly when it fits, closes no loop, carries a typed cube, joins agreeing branches, and leaves its target typed if now fully fed |
| Admission.OnlyTargetRetyped | web/src/authoring-dag.ts:265-281 | On a valid graph such an edge changes the type of its target alone, so rechecking everything downstream finds nothing else |
| Admission.AllowedKeepsValid | web/src/authoring-dag.ts:226-283 | An accepted edge keeps the graph well-formed, acyclic, with typed edge sources and typed fully fed steps |
| Admission.AddStepKeepsValid | web/src/authoring-dag.ts:226-283 | So does placing an unconnected step |
| Admission.EveryHistoryValid | web/src/authoring-dag.ts:226-283 | Every graph reached from the empty canvas by placing steps and drawing accepted edges is valid |
| Admission.CompleteHistoryTypes | web/src/authoring-dag.ts:179-183 | Once all inputs are fed such a graph is well typed, and feeds in no cycle |
| Admission.AllowedKeepsOneCollection | web/src/authoring-dag.ts:254-264 | An accepted edge keeps every typed step to one collection |
| Admission.EveryHistoryOneCollection | web/src/authoring-dag.ts:197-214 | In every such history, with loads named by strings, every load reaching a typed step names the collection found by following first inputs only, however deeply joins nest |
| Admission.EdgeRuleExact | web/src/authoring-dag.ts:226-283 | The rule refuses nothing it could keep: on a valid graph of one collection an edge out of an output port is accepted exactly when the graph with it is again valid and of one collection |
| Admission.ReasonTold | web/src/authoring-dag.ts:226-283 | An edge is refused with the first reason that holds of it, in the order the checks are made, a mistyped step being the first on the canvas; and accepted exactly when none holds |
| Heads.CollectionOf | web/src/authoring-dag.ts:197-214 | The walk up first inputs, on cyclic graphs too, finds the collection of the load head it ends at, if that is a string |
| Heads.LoadHead | web/src/authoring-dag.ts:495-507 | The walk up first inputs finds the load head, or none when it loops or runs out |
| Heads.TypedHead | web/src/authoring-dag.ts:495-507 | A typed node has a load head, and the head reaches it |
| Heads.HeadStep | web/src/authoring-dag.ts:495-507 | A typed step descends from the same head as its first source |
| Heads.FirstSourceAt | web/src/authoring-dag.ts:209-211 | The first input followed is a join's `cube1`, a scale's `x`, `data` of any other step, and none of a load |
| Heads.CollectionNamed | web/src/authoring-dag.ts:199-203 | The collection is the `id` of the load the first inputs lead to, where that is a string |
| Paths.Reaches | web/src/authoring-dag.ts:309-329 | The stack search answers whether a path exists |
| Paths.AcyclicAddEdge | web/src/authoring-dag.ts:244-247 | An edge keeps the graph acyclic exactly when its target does not reach its source |
| Paths.AcyclicNoClosedWalk | web/src/authoring-dag.ts:309-329 | A graph is acyclic exactly as it has no closed walk |
| Ordering.Topological | web/src/authoring-dag.ts:511-527 | The shrinking-map loop gives the layered ordering of the nodes keyed by id, a later node taking the place of an earlier one with its id: round by round what has no source left, in presentation order, until a round finds nothing |
| Ordering.KeyedLatest | web/src/authoring-dag.ts:512-512 | Keyed by id, the ids keep the order they are first seen in, and each stands for the last node with it |
| Ordering.KeyedSame | web/src/authoring-dag.ts:512-512 | With unique ids keying replaces nothing |
| Layout.OrderNoDuplicates | web/src/authoring-dag.ts:511-527 | Each node at most once |
| Layout.SourcesFirst | web/src/authoring-dag.ts:511-527 | Every source of an ordered node comes before it |
| Layout.OmittedExactly | web/src/authoring-dag.ts:511-527 | A node is omitted exactly when it lies on a cycle or downstream of one |
| Layout.AcyclicOrdersAll | web/src/authoring-dag.ts:511-527 | On an acyclic graph nothing is omitted |
| Layout.OrderedByDepth | web/src/authoring-dag.ts:511-527 | The ordering goes by longest-path depth, with ties in presentation order |
| Layout.LayerDepth | web/src/authoring-dag.ts:511-527 | The nodes of a round are exactly those of that longest-path depth |
| Layout.Columns | web/src/swath-authoring-panel.ts:1857-1864 | The columns the panel lays out by are the longest-path depths of the ordered nodes |
| Layout.DepthFromSources | web/src/swath-authoring-panel.ts:1857-1864 | A node is one deeper than the deepest node feeding it |
| Truncation.PreviewPreviews | web/src/authoring-dag.ts:557-573 | Previewing a typed step of a well-formed graph: the cut graph is well-formed, types, has no orphans, keeps each kept step's type and value, and outputs `save_result` of the step's own value in the full graph |
| Truncation.TruncatedAt | web/src/authoring-dag.ts:557-573 | What feeds the step, and an output after it; on a well-formed graph, nothing exactly at the output and off the canvas |
| Truncation.TruncatedWhen | web/src/authoring-dag.ts:557-561 | On a well-formed graph the cut gives a graph exactly at the cards that give a cube |
| Truncation.TruncatedSound | web/src/authoring-dag.ts:562-573 | For every id: the graph given is well-formed wiring of the cards that lead to it and the edges between them, ends in the panel's output with its parameters and in no other, and is acyclic if the graph was |
| Preview.PreviewGraph | web/src/swath-authoring-panel.ts:1574-1597 | The lowered graph of what is previewed: the pipeline up to the selected step where that renders, and otherwise the whole |
| Preview.PreviewShows | web/src/swath-authoring-panel.ts:1574-1597 | On an acyclic canvas with its output: for a selected card that gives a cube of one band, or of three that are scaled, the preview denotes that cube saved as the output card says; for any other selection, the output's own value |
| Truncation.CutKeepsType | web/src/authoring-dag.ts:557-573 | Each kept step keeps its type |
| Truncation.CutKeepsValue | web/src/authoring-dag.ts:557-573 | Each kept step keeps its value |
| Truncation.CutOutputValue | web/src/authoring-dag.ts:565-572 | The output of the cut graph is `save_result`, with the output card's parameters, of the step's value in the full graph |
| Truncation.CutAcyclic | web/src/authoring-dag.ts:557-573 | A cut of an acyclic graph is acyclic, so all of it is lowered |
| Truncation.PreviewLowers | web/src/swath-authoring-panel.ts:1592-1597 | What the panel sends for a typed step: the lowered cut denotes `save_result` of the step's value in the full graph, and nothing else |
| Output.Orphans | web/src/authoring-dag.ts:339-347 | The steps with no path to the output, in presentation order: every step while there is no output |
| Output.OrphanExactly | web/src/authoring-dag.ts:339-350 | A card is an orphan exactly when the canvas has no output, or no walk leads from the card to it |
| Output.OutputFirst | web/src/authoring-dag.ts:332-336 | The output is the first `save_result` on the canvas |
| Edits.InsertThenRemove | web/src/swath-authoring-panel.ts:1021-1034 | Removing a step just inserted on an edge restores the edges, the edge inserted on moved to the end |
| Edits.RemoveIsUninsert | web/src/swath-authoring-panel.ts:1021-1034 | Every one-in one-out step is removed as if it had just been inserted: inserting it back on the bridging edge gives the same edges |
| Edits.InsertKeepsReach | web/src/swath-authoring-panel.ts:958-987 | Insertion neither adds nor loses a path between the other steps |
| Edits.InsertKeepsAcyclic | web/src/swath-authoring-panel.ts:958-987 | Insertion keeps the graph acyclic exactly when it was |
| Edits.InsertedStepReach | web/src/swath-authoring-panel.ts:958-987 | The inserted step leads exactly where the edge led |
| Edits.InsertKeepsSingleFed | web/src/swath-authoring-panel.ts:958-987 | Insertion keeps every port fed at most once |
| Edits.RemoveKeepsReach | web/src/swath-authoring-panel.ts:1021-1034 | Removing a one-in one-out step keeps exactly the paths between the other steps, and acyclicity both ways |
| Edits.RemoveOffPath | web/src/swath-authoring-panel.ts:1021-1034 | Any other removal only takes paths away |
| Edits.RemoveKeepsSingleFed | web/src/swath-authoring-panel.ts:1021-1034 | Removal keeps every port fed at most once |
| Edits.JoinReach | web/src/swath-authoring-panel.ts:995-1015 | Exactly what joining makes reachable between old steps: the old paths, and what the first step fed from what reached the second |
| Edits.JoinAcyclic | web/src/swath-authoring-panel.ts:995-1015 | Joining two distinct steps through a fresh join keeps an acyclic graph acyclic exactly when the first does not reach the second |
| Edits.OldPathsSurvive | web/src/swath-authoring-panel.ts:995-1015 | Every old path survives a join |
| Branching.InsertKeepsWellFormed | web/src/swath-authoring-panel.ts:958-987 | Insertion keeps the wiring well-formed |
| Branching.RemoveKeepsWellFormed | web/src/swath-authoring-panel.ts:1021-1034 | Removal breaks well-formed wiring exactly when the step has one input and one output and they are the same edge, which then stays behind |
| Branching.JoinKeepsWellFormed | web/src/swath-authoring-panel.ts:995-1015 | Joining steps that have outputs keeps the wiring well-formed |
| Branching.BranchKeepsWellFormed | web/src/swath-authoring-panel.ts:1040-1066 | A branch into a free port keeps the wiring well-formed |
| Branching.BranchKeepsAcyclic | web/src/swath-authoring-panel.ts:1040-1066 | A branch keeps the graph acyclic exactly when it was |
| Branching.InsertKeepsOrphans | web/src/swath-authoring-panel.ts:958-987 | Insertion makes no old step an orphan and cures none; the new one is an orphan exactly when the edge's target was |
| Branching.RemoveKeepsOrphans | web/src/swath-authoring-panel.ts:1021-1034 | Removing a one-in one-out step leaves the others' orphanhood as it was |
| Branching.JoinAddsNoOrphan | web/src/swath-authoring-panel.ts:995-1015 | Joining makes no old step an orphan |
| Branching.BranchedJoinTypes | web/src/swath-authoring-panel.ts:1040-1066 | Inserting a join on an edge that carries a gray unscaled cube, then starting a load→NDVI branch into its free port, turns a well-typed graph into a well-typed one with every old step's type unchanged, and keeps it acyclic |
| Branching.JoinTypes | web/src/swath-authoring-panel.ts:1040-1066 | The join and both cards of the branch type |
| Branching.JoinKeepsType | web/src/swath-authoring-panel.ts:1040-1066 | Every typed old step keeps its type |
| Removal.RemovalKeepsTypes | web/src/swath-authoring-panel.ts:1021-1034 | Removing any card of a well-typed graph leaves every other step's type unchanged exactly when the card feeds nothing, or is a date filter with one input and one output; then the graph stays well typed |
| Removal.UnbridgedTarget | web/src/swath-authoring-panel.ts:1021-1034 | Whatever another step is fed by a card that is not one-in one-out, it has no type once the card is gone |
| Removal.ReduceBeforeJoin | web/src/swath-authoring-panel.ts:1021-1034 | On any well-formed canvas, taking a typed one-in one-out reducing step out before a join leaves the join without a type |
| Removal.SourceAfter | web/src/swath-authoring-panel.ts:1021-1029 | On any well-formed canvas every other port is fed as before, except that the ports the removed card fed have its source if it was one-in one-out, and nothing otherwise |
| Removal.UpstreamKept | web/src/swath-authoring-panel.ts:1021-1034 | Whatever card is taken out of a well-formed canvas, the steps it does not lead to keep their types |
| Removal.FilterRemoved | web/src/swath-authoring-panel.ts:1021-1034 | Taking a one-in one-out date filter out, every other typed step keeps its type, whatever else on the canvas does not type |
| Removal.UnfedFromKept | web/src/swath-authoring-panel.ts:1021-1034 | Taking out a card that feeds nothing leaves the type of every other step alone |
| Removal.ApplyInjective | web/src/authoring-dag.ts:103-129 | No rule forgets the stage of an input: a step types the same only on the same stages |
| Typing.TypedAcyclic | web/src/authoring-dag.ts:179-183 | A well-formed graph that types has no cycle of edges |
| Typing.TypedOffCycle | web/src/authoring-dag.ts:155-157 | On well-formed wiring nothing a typed step feeds leads back to it, whatever else is cyclic |
| Typing.FeederTyped | web/src/authoring-dag.ts:164-168 | What feeds a typed step is typed, and is not led back to |
| Lineage.TypeTells | web/src/authoring-dag.ts:103-129 | A typed step's cube is gray exactly when it has passed an NDVI, a formula or a join, a UDF result exactly when it has passed a UDF, and scaled exactly when it has passed a scale |
| Lineage.TypesWhenFed | web/src/authoring-dag.ts:147-175 | A step types exactly when all its inputs are fed by typed steps whose cubes it accepts, read off the steps they have passed: a reducing step takes an untouched cube, a scale an unscaled one, a join gray unscaled ones |
| Lineage.WellTypedExactly | web/src/authoring-dag.ts:179-183 | A well-formed graph is well typed exactly when it is acyclic, every input is fed, and every edge's target accepts what the cube has passed: typing without stages |
| Joining.JoinKeepsTypes | web/src/swath-authoring-panel.ts:995-1015 | Joining two distinct steps of a well-typed graph leaves it well typed exactly when both carry gray unscaled cubes and the first does not lead to the second; every old step then keeps its type |
| Joining.JoinTypesWhen | web/src/swath-authoring-panel.ts:995-1015 | On any well-formed canvas, whatever does not type on it or lies on a cycle, the join itself types exactly then |
| Joining.TypedKept | web/src/swath-authoring-panel.ts:995-1015 | And then every typed old step keeps its type |
| Joining.JoinSources | web/src/swath-authoring-panel.ts:1005-1010 | The first step feeds the join's first input, the second its second |
| Joining.SourceJoined | web/src/swath-authoring-panel.ts:1004-1011 | Every old port is fed as before, except that what the first step fed the join now feeds |
| Joining.EndsKept | web/src/swath-authoring-panel.ts:995-1015 | Where the first step does not lead to the second, joining leaves the types of the two alone, typed or not |
| Panel.StepIdInjective | web/src/swath-authoring-panel.ts:836-844 | Ids under different numbers differ, so an id handed out once is never reused |
| Panel.StepIdText | web/src/swath-authoring-panel.ts:836-844 | An id is the letter s and a number |
| Decimals.DecimalReads | web/src/swath-authoring-panel.ts:836-844 | A number in an id is written in base ten, with no zero before it |
| Panel.Panel.constructor | web/src/swath-authoring-panel.ts:735-750 | The empty pipeline: a load head `s1` feeding the output `s2` |
| Panel.Panel.NewCard | web/src/swath-authoring-panel.ts:840-858 | A card under an id no card has had |
| Panel.Panel.InsertOn | web/src/swath-authoring-panel.ts:958-987 | The new cards and edges of an insertion; a process without inputs changes nothing; the canvas stays well-formed, and acyclic exactly when it was |
| Panel.Panel.JoinPair | web/src/swath-authoring-panel.ts:995-1015 | The new cards and edges of a join; the canvas stays well-formed, and an acyclic canvas stays so exactly when the first step does not reach the second |
| Panel.Panel.RemoveCard | web/src/swath-authoring-panel.ts:1021-1034 | The cards and edges left; the panel's state becomes invalid exactly when the step has one input and one output and they are the same edge, and is valid and acyclic if it was acyclic |
| Panel.Panel.StartBranch | web/src/swath-authoring-panel.ts:1040-1066 | The new cards and edges of a branch, or no change when a process is not served; the canvas stays well-formed, and acyclic exactly when it was |
| Panel.InsertThenBranch | web/src/swath-authoring-panel.ts:1040-1066 | An insertion of a join followed by a branch into its second port is the edit whose typing `Branching.BranchedJoinTypes` keeps |
| Panel.FindJoinIssue | web/src/swath-authoring-panel.ts:2283-2306 | What the join offer objects to: an end that is no step, has no output or no type, or kinds that differ |
| Panel.EndIssueExactly | web/src/swath-authoring-panel.ts:2283-2306 | An end is faulted exactly for being no card, else for giving no cube, else for having no type |
| Panel.JoinIssueExactly | web/src/swath-authoring-panel.ts:2283-2306 | The offer objects to nothing exactly when both ends are typed cards that give a cube of the same kind; otherwise the first end's fault is told before the second's, and a difference of kinds last |
| Pitfalls.JoinOfferLoops | web/src/swath-authoring-panel.ts:2283-2306 | The offer does not ask whether the first step reaches the second: on load→ndvi→filter→save it objects to nothing and the join closes a loop; `Edits.JoinAcyclic` is the exact condition |
| Pitfalls.JoinOfferUntyped | web/src/swath-authoring-panel.ts:2283-2306 | The offer compares kinds alone: in the NDVI template it objects to nothing against joining the scaled cube with the NDVI, and the join has no type; `Joining.JoinTypesWhen` is the exact condition |
| Pitfalls.BranchIntoReduce | web/src/swath-authoring-panel.ts:1040-1066 | A branch started into an NDVI that nothing feeds leaves it without a type; `Menu.BranchTypesWhen` is the exact condition |
| Pitfalls.ReduceDropped | web/src/swath-authoring-panel.ts:1021-1034 | One load reduced by two NDVIs that a join takes is well typed; taking one NDVI out leaves the join without a type |
| Pitfalls.LoneLoop | web/src/swath-authoring-panel.ts:1021-1034 | A join fed by nothing but itself stands on a well-formed canvas; removing it leaves its edge, and the canvas is well-formed no more |
| Pitfalls.LoopLeftBehind | web/src/swath-authoring-panel.ts:958-1066 | A run of the panel's own edits from the first pipeline to such a canvas and past it: a join, its branch, a filter in the branch; the join and the branch's NDVI removed; the branch's load joined with the filter, to which the offer finds no objection; the filter, the load and the new join removed. The edge left has no card at either end |
| Discipline.PathShape | web/src/authoring-dag.ts:103-129 | On every path of a well-typed well-formed graph: no reducing step after a reducing step or a join; only date filters, scales and the output after a UDF, so no join; only date filters and the output after a scale, so no second scale, no reducing step and no join; and a reducing step between a load and a join |
| Discipline.PhasesRise | web/src/authoring-dag.ts:103-129 | Along a path cubes go from loaded to reduced to scaled and never back |
| Discipline.JoinRule | web/src/authoring-dag.ts:115-124 | A typed join takes and carries gray unscaled cubes |
| Discipline.StepStages | web/src/authoring-dag.ts:103-129 | A typed step's rule accepted the stage of each of its sources |
| Palette.PaletteAgrees | web/src/authoring-dag.ts:353-372 | On a straight pipeline the palette of an edge is `insertableAt` on the chain with date filters erased, at the edge's gap, after a date filter offered wherever the pipeline types |
| Palette.InsertableMatches | web/src/authoring-model.ts:145-151 | A transforming step may be spliced on an edge exactly when the chain admits it at the gap |
| Palette.StraightTypes | web/src/authoring-dag.ts:179-183 | A straight pipeline types exactly when its chain runs to the end |
| Palette.SplicedStraight | web/src/authoring-dag.ts:376-393 | Splicing a step onto a straight pipeline gives the longer straight pipeline |
| Palette.InsertableOn | web/src/authoring-dag.ts:353-372 | Which palette processes fit on the edge with the graph still typing, in order |
| Palette.Fits | web/src/authoring-dag.ts:359-371 | Whether one process fits: offered, not a join, and the spliced graph types |
| Palette.InsertCandidates | web/src/swath-authoring-panel.ts:2227-2245 | The menu of an edge: what can be spliced, and a join where the cube is gray and unscaled and the target is not a join |
| Menu.OfferedInsertTypes | web/src/authoring-dag.ts:353-372 | For a served step other than a join: its menu offers it on an edge exactly when the graph types after the panel has inserted it there |
| Menu.InsertedTypes | web/src/swath-authoring-panel.ts:958-987 | The insertion the panel makes has the types of the splice the menu asked about |
| Menu.BranchTypesWhen | web/src/swath-authoring-panel.ts:1040-1066 | On any well-formed canvas a branch started into a free port makes its step type exactly when the step is a date filter, a scale or the output, or a join whose other input carries a gray unscaled cube |
| Menu.EditKeepsTyped | web/src/swath-authoring-panel.ts:958-1066 | Each such edit keeps the graph well-formed and well typed |
| Menu.EveryRunTyped | web/src/swath-authoring-panel.ts:958-1066 | Whatever the panel inserts from its menus, joins with their branches among it, and joins or removes where types allow, in whatever order, from a well-typed graph: every graph of the run is well-formed, acyclic and well typed |
| Menu.EmptyPipelineTyped | web/src/swath-authoring-panel.ts:742-750 | The empty pipeline is well typed |
| History.EveryHistoryAcyclic | web/src/swath-authoring-panel.ts:958-1066 | Over every run of insertions, branches, joins and removals, whatever they do to types, from a well-formed acyclic canvas: every canvas is acyclic exactly when no edit joined a step to one it led to, and then every canvas is well-formed |
| History.EveryHistoryWired | web/src/swath-authoring-panel.ts:958-1066 | Over every such run from a well-formed canvas: every canvas is well-formed exactly when no edit removed a card with one input and one output that were the same edge |
| History.ChangeKeepsWired | web/src/swath-authoring-panel.ts:958-1066 | Each such edit keeps the wiring well-formed exactly then |
| History.ChangeKeepsAcyclic | web/src/swath-authoring-panel.ts:958-1066 | Each such edit keeps an acyclic canvas acyclic exactly when it is not a join of a step to one it leads to |
| Stages.FinalStage | web/src/authoring-model.ts:129-142 | The stage the chain's transitions compose to: there is one exactly when the chain is empty, a reducing step, a scale, or a reducing step and then a scale; it is a UDF result exactly if the chain holds `run_udf`, gray exactly if it holds `ndvi` or `reduce_dimension`, scaled exactly if it holds a scale |
| Stages.RunChainSnoc | web/src/authoring-model.ts:129-142 | Running a chain one step further is one more transition |
| Stages.InsertableExactly | web/src/authoring-model.ts:157-176 | The palette at a gap: NDVI, formula, UDF and scale, in this order, each where it is served (a formula also needs `array_element` and arithmetic) and leaves a chain that runs |
| Template.TemplateValid | web/src/authoring-dag.ts:664-683 | The NDVI template is a valid graph: well-formed, acyclic, typed throughout with a scaled gray output, every step leading to it |
| Template.TemplateMakes | web/src/authoring-dag.ts:664-683 | It saves, as PNG, the NDVI of the two bands of the collection, scaled from -1..1 to 0..255 |
| Template.StraightMakes | web/src/authoring-dag.ts:664-683 | A straight pipeline runs its steps one after the other, each on what the one before made |
| Template.StraightWellFormed | web/src/authoring-dag.ts:664-683 | Every straight pipeline is well-formed wiring |
| Formula.CompiledFormulaComputes | web/src/authoring-model.ts:277-315 | When nothing blocks a formula, evaluating the graph it compiles to gives the value of its last line read directly, whatever bands, numbers and operations mean |
| Formula.ReducerDenotes | web/src/authoring-model.ts:277-315 | The compiled child graph denotes the function of the last line and nothing else, in any surrounding scope |
| Formula.PrefixedReducerDenotes | web/src/authoring-dag.ts:607-616 | It still does once the graph lowering has prefixed it |
| Formula.LineDenotes | web/src/authoring-model.ts:304-313 | Each line's node denotes what the line says |
| Formula.LineTermValue | web/src/authoring-model.ts:277-315 | Evaluating the term of a line gives the line's value |
| Formula.BuildReducerGraph | web/src/authoring-model.ts:277-315 | One `array_element` per noted band, one node per line, no other key, each written once; and when lines refer to lines above, every reference names a node written earlier |
| Formula.Arg | web/src/authoring-model.ts:282-303 | One operand as an argument; a band not met before takes the next key and its node |
| Formula.BandsUsed | web/src/authoring-model.ts:282-293 | The noted bands are exactly the bands the lines use |
| Formula.BandsInOrder | web/src/authoring-model.ts:280-301 | They are noted in the order they are first read, line after line, the left operand before the right |
| Formula.BandsDistinct | web/src/authoring-model.ts:282-293 | Each band is noted once |
| Formula.OneResult | web/src/authoring-model.ts:309-311 | Exactly one node is marked as the result, the last line's |
| Formula.ReducerPrefixable | web/src/authoring-model.ts:277-315 | The compiled graph holds no child graphs, so it keeps its meaning under a prefix |
| Formula.ReducerWhole | web/src/authoring-model.ts:277-315 | Followed as deep as it has lines, the compiled graph leaves no reference unfollowed |
| Formula.KeysDistinct | web/src/authoring-model.ts:282-312 | Band keys and line keys are distinct among themselves and from each other |
| Formula.KeysWritten | web/src/authoring-model.ts:282-312 | Bands are keyed `b1`, `b2`, ... and lines `r1`, `r2`, ..., and a line is referred to by its own key |
| Formula.FormulaIssues | web/src/authoring-model.ts:203-235 | The issues in line and side order; none exactly when there is a line and every operand is a loaded band, a number or a line above |
| Formula.IssueFree | web/src/authoring-model.ts:203-235 | Nothing blocks the lines exactly when every operand is a loaded band, a number or a line above |
| Formula.IssuesExactly | web/src/authoring-model.ts:203-235 | An issue is raised exactly when some operand is what it says, on its line and at its side: a band not picked, a band not loaded, a text that is no number, a line not above |
| Formula.IssuesInOrder | web/src/authoring-model.ts:203-235 | Issues are told line by line, the left side before the right |
| FormulaEdits.RemoveKeepsValue | web/src/swath-authoring-panel.ts:3040-3056 | Removing a line leaves the value of every line not depending on it, directly or through others, unchanged at its shifted place |
| FormulaEdits.RemoveStaysComplete | web/src/swath-authoring-panel.ts:3040-3056 | A formula without issues stays without once a line is removed exactly when another line is left and no other line used the removed one directly |
| FormulaEdits.EveryRunAbove | web/src/swath-authoring-panel.ts:2969-2976 | After every run of edits each line refers to lines strictly above it |
| FormulaEdits.NeverOnlyLinesAbove | web/src/authoring-model.ts:226-230 | So a formula edited from its first line is never told that a line may only use lines above |
| FormulaEdits.ChangeKeepsValue | web/src/swath-authoring-panel.ts:3129-3146 | Changing a line changes the value of no line but itself and those depending on it |
| FormulaEdits.AddKeepsValue | web/src/swath-authoring-panel.ts:2969-2976 | A new line's value is the last line's divided by a blank, and every other line keeps its value |
| FormulaEdits.Card.constructor | web/src/swath-authoring-panel.ts:968-972 | A new formula is one subtraction with both operands to pick |
| FormulaEdits.Card.AddLine | web/src/swath-authoring-panel.ts:2969-2976 | A new line divides the line before it, or a blank, by a blank |
| FormulaEdits.Card.RemoveLine | web/src/swath-authoring-panel.ts:3040-3056 | The line is taken out and references are renumbered: to it reset, past it one less |
| FormulaEdits.Card.SetOperand | web/src/swath-authoring-panel.ts:3088-3146 | An operand becomes a band, a number or a line above, and no other line changes |
| FormulaEdits.Card.SetOp | web/src/swath-authoring-panel.ts:3023-3031 | The operation changes, and no other line |
| AppState.ReadAfterWrite | web/src/app-state.ts:81-144 | Reading what was written gives the canonical state: the view, `sel` only under author, `step` only under sources, bounds that are days, and the rail of the old string |
| AppState.WriteAfterWrite | web/src/app-state.ts:111-144 | A second write overwrites the first completely |
| AppState.ForeignSurvive | web/src/app-state.ts:114-123 | Foreign pairs survive byte for byte and in order |
| AppState.ForeignReadsKept | web/src/app-state.ts:111-144 | Every parameter this module does not write, `rail` among them, reads as it did |
| AppState.WriteAfterRead | web/src/app-state.ts:81-144 | Writing back what was read changes nothing that can be read, and doing so again changes nothing at all |
| AppState.WritesExactly | web/src/app-state.ts:117-123 | Whatever the state, a write throws exactly when the name of some pair is not spelled by bytes other than the percent sign and escapes of whole UTF-8 characters |
| AppState.LonePercentThrows | web/src/app-state.ts:117-123 | Beside a lone percent sign no state can be written, though the search string can be read |
| Percent.DecodesWhen | web/src/app-state.ts:121-121 | decodeURIComponent decodes a text exactly when it is spelled by such pieces |
| Percent.PiecesDecode | web/src/app-state.ts:121-121 | And then to what the pieces mean |
| AppState.EqualWritten | web/src/app-state.ts:146-155 | Canonical states are written the same exactly when they are equal but for the rail |
| AppState.ForeignReads | web/src/app-state.ts:114-123 | Dropping the written parameters drops exactly them from what can be read |
| AppState.SameParam | web/src/app-state.ts:121-122 | Writer and reader agree on which pairs carry a written parameter, though they decode names differently |
| AppState.WithAppState | web/src/app-state.ts:111-144 | The state's own pairs in order, then the foreign ones, joined; read by name the string holds each field under its own; none where decoding a name throws |
| AppState.ForeignPairs | web/src/app-state.ts:114-123 | The pairs that are not empty and not a written parameter, in order |
| AppState.ParseAppState | web/src/app-state.ts:81-106 | The state a search string holds, each field by the name of its parameter |
| AppState.ReadsByName | web/src/app-state.ts:81-106 | `from` and `to` are read where they are dates of the calendar, `sel` under `view=author` and `step` under `view=sources` alone and where not blank, the view by its word, and the rail where it is `collapsed` |
| AppState.WritesByName | web/src/app-state.ts:124-141 | The string written holds, read by name, `view` unless it is the layers, `sel` under the author view, `step` under the sources view, `from` and `to`, each with the state's own value where that is not blank |
| AppState.OwnInOrder | web/src/app-state.ts:124-141 | The state's own pairs are written in the order view, sel, step, from, to |
| AppState.OwnFirst | web/src/app-state.ts:142-143 | They stand before the foreign pairs; a string with any pair begins with a question mark, and one with none is empty |
| AppState.StatesEqual | web/src/app-state.ts:146-155 | States are equal when they agree on everything |
| Calendar.DaysRead | web/src/app-state.ts:61-71 | Exactly the dates of the Gregorian calendar, by its day count, written as four digits, two and two, are read as bounds |
| Calendar.MonthLengths | web/src/app-state.ts:61-71 | A month has as many days as the day count passes until the first of the next, leap years included |
| AppState.OwnReads | web/src/app-state.ts:124-141 | The pairs written hold the state's parameters and no other |
| Percent.EncodeDecodes | web/src/app-state.ts:129-139 | What encodeURIComponent writes the query reader reads back (section 2.1 of RFC 3986) |
| Percent.EncodeUnseparated | web/src/app-state.ts:129-139 | An encoded value holds no byte that separates a query's parts |
| Percent.DecodersAgree | web/src/app-state.ts:121-121 | Where decodeURIComponent decodes, the query reader reads the same, up to plus signs |
| Percent.Utf8Exactly | web/src/app-state.ts:121-121 | The byte sequences taken for a character are exactly the UTF-8 encodings of Unicode scalar values (section 3 of RFC 3629) |
| Percent.EncodesByte | web/src/app-state.ts:129-139 | Letters, digits and nine marks are written as they are, every other byte as a percent sign and two upper-case digits |
| Percent.FormReads | web/src/app-state.ts:81-97 | A query is read byte by byte: plus as a space, a percent sign and two digits as their byte, anything else as itself |
| Query.FormatPairs | web/src/app-state.ts:142-143 | The pairs joined are the pairs split |
| Query.FormatSnoc | web/src/app-state.ts:142-143 | Pairs are written after a question mark, each after the first behind an ampersand |
| Query.PairsBare | web/src/app-state.ts:114-120 | The question mark before a search string is no part of its pairs |
| Query.PairWhole | web/src/app-state.ts:81-106 | A pair without an equals sign is all name, with a blank value |
| Compare.SidesToldApart | web/src/compare-model.ts:48-119 | For every comparison that resolves, each side's own requests are told apart exactly when the sides differ; they coincide only in date mode at the left side's own instant |
| Compare.ResolvesWhen | web/src/compare-model.ts:48-66 | A comparison resolves exactly when an instant alone is asked for, or a layer alone that is not empty nor the active one |
| Compare.SidesShown | web/src/compare-model.ts:83-97 | The left side is the map's own layer and frame; the right differs in what is compared and in nothing else |
| Compare.SideOfTrace | web/src/compare-model.ts:81-119 | A trace is the right side's exactly when it is what that side asks for, the left's exactly when it is what the left asks for and the right does not, and otherwise neither's |
| TraceStore.StoreKeepsLatest | web/src/swath-xray.ts:939-970 | Between changes of sides the store is the last `capacity` distinct keys by latest update, each with its latest trace |
| TraceStore.EveryRunTagged | web/src/swath-xray.ts:872-894 | Over every run of traces and comparisons the keys are distinct and within capacity, each tagged entry matches `traceSide` for the current sides, and none is tagged while no comparison is active |
| TraceStore.TaggedIsShown | web/src/swath-xray.ts:939-955 | So each tagged entry is one its side is showing: of the right's layer and instant, or of the active layer and frame |
| TraceStore.StepKeepsValid | web/src/swath-xray.ts:872-970 | Each step keeps that |
| TraceStore.EvictOnce | web/src/swath-xray.ts:964-970 | Evicting before an update or after it comes to the same |
| TraceStore.CompareKeepsPlain | web/src/swath-xray.ts:864-881 | Whatever comparison is set, the untagged entries afterwards are exactly those before, in order; and if the sides change nothing else is left |
| TraceStore.ComparisonsLeaveStore | web/src/swath-xray.ts:864-881 | However comparisons come and go with no trace between, the untagged entries stay as they were; begun and ended without one, the store is the same |
| TraceStore.StoreAcrossSides | web/src/swath-xray.ts:872-970 | Across a change of sides: of the last `capacity` keys by latest update before it, those untagged, and then the updates since |
| TraceStore.TraceStandsLast | web/src/swath-xray.ts:939-964 | A trace stands last, tagged with its side and under its side's name: the right's where it is what the right shows, else the left's where it is what the left shows; any other, or without a comparison, under its plain key and untagged |
| TraceStore.Overlay.OnTrace | web/src/swath-xray.ts:939-970 | Re-inserts the key as latest and evicts the oldest keys over the capacity |
| TraceStore.Overlay.SetCompare | web/src/swath-xray.ts:872-881 | A change of sides, and only that, takes out exactly the tagged entries; the untagged stay in order |
| TraceStore.Overlay.PurgeTagged | web/src/swath-xray.ts:876-881 | Deleting while iterating takes out exactly the tagged entries and keeps the order of the others |
| TraceStore.Overlay.constructor | web/src/swath-xray.ts:637-643 | An empty store, no comparison |
| TraceFeed.FeedShowsLatest | web/src/swath-xray.ts:1036-1105 | While the feed runs it shows exactly the last 200 lines received, however often it was paused and however far the queue overflowed; while paused it shows the last 200 before the pause; shown, queued and dropped lines always add up to those received |
| TraceFeed.StepShows | web/src/swath-xray.ts:1036-1105 | Each line and each pause or resume keeps that |
| TraceFeed.LastOfLast | web/src/swath-xray.ts:1044-1050 | Trimming two parts and then their concatenation is trimming the whole |
| TraceFeed.Feed.Append | web/src/swath-xray.ts:1080-1098 | A line is shown or, while paused, queued, the oldest dropped and counted over the bound |
| TraceFeed.Feed.TogglePause | web/src/swath-xray.ts:1036-1053 | Pausing holds what is shown; resuming appends the queue line by line and trims |
| TraceFeed.Feed.Trim | web/src/swath-xray.ts:1100-1105 | Drops and counts the oldest lines over the bound |
| TraceFeed.Feed.constructor | web/src/swath-xray.ts:665-669 | An empty running feed |
| Previews.EveryRunLimited | web/src/swath-catalog.ts:681-708 | Over every interleaving: never more than three requests run, a request waits only while three run, and requests are sent in the order they were made |
| Previews.StartsAfter | web/src/swath-catalog.ts:694-704 | A request at place k of the queue is sent exactly at the k + 1st completion |
| Previews.OneJobPerKey | web/src/swath-catalog.ts:683-707 | While the cache is not cleared, two jobs of a key neither of whose refusals was taken back are the same job: at most one is undecided, and a preview that came is not asked for again |
| Previews.ClearHarmless | web/src/swath-catalog.ts:64-66 | Clearing the cache is harmless exactly while no job is open (undecided, or refused with the refusal still to be taken from the cache): then and only then does every later run keep each key to one undecided job until the next clearing |
| Previews.OneOpenPerKey | web/src/swath-catalog.ts:683-707 | Over every run in which the cache is cleared only while no job is open, a key has at most one open job |
| Previews.ClearRepeats | web/src/swath-catalog.ts:64-66 | A run in which clearing breaks it; the exact condition is `Previews.ClearHarmless` |
| Previews.StepKeepsValid | web/src/swath-catalog.ts:681-708 | Each callback keeps the limit, and starts jobs only in order |
| Previews.StepKeepsCached | web/src/swath-catalog.ts:683-707 | Each callback but a clearing keeps every job not taken back the one its key is cached under |
| Previews.InFlightCounts | web/src/swath-catalog.ts:686-698 | The counter is the number of requests running |
| Previews.Catalog.constructor | web/src/swath-catalog.ts:180-181 | Nothing in flight, nothing waiting |
| Previews.Catalog.Thumbnail | web/src/swath-catalog.ts:681-708 | The cached promise, or a new job, sent at once while fewer than three run and queued otherwise |
| Previews.Catalog.Run | web/src/swath-catalog.ts:686-693 | One more in flight, and the request is sent |
| Previews.Catalog.OnRefused | web/src/swath-catalog.ts:707-707 | A refused key is free to be asked for again |
| Previews.Catalog.OnFinished | web/src/swath-catalog.ts:695-698 | A completion frees a place and sends the request that has waited longest |
| Previews.Catalog.ClearThumbnailCache | web/src/swath-catalog.ts:64-66 | The cache is emptied; nothing in flight or waiting changes |

## Left out

- Panel.Panel.RemoveCard: loses validity exactly when the step has one input and one output and they are the same edge (`Pitfalls.LoneLoop`), and says nothing about types, because removal does not keep them in general; `Removal.RemovalKeepsTypes` says exactly when it does.
- Panel.Panel.JoinPair: says nothing about types; `Joining.JoinKeepsTypes` says exactly when the joined graph types.
- Lowering.LowerPreserves: leaves out graphs with a child graph that does not keep its meaning under a prefix, for which it fails as `Json.PrefixedChildExact` says.
- Json.PrefixedChildExact: speaks of child graphs whose references name their own nodes and whose nested keys hold no separator.
- Previews.OneJobPerKey: leaves out runs that clear the cache; `Previews.ClearHarmless` says exactly when clearing keeps the weaker promise that no key has two undecided jobs.
- Process and port names are enumerations with an `Other` or `Named` case for every further name; `Other` is taken to be none of the listed processes.
- JSON: an object with a string `from_node` and other keys beside it is a plain object; a `process_graph` that is null or an array is not told apart as a child graph, nor one whose only key is `from_node`; numbers are kept as their text; keys beside `process_graph` in a child graph are given no meaning, and prefixing drops them, as the code does; the key order of objects is not modelled except in `Formula.Record` and the trace store.
- Deciding which texts read as numbers is a parameter of the formula issues.
- formulaPhrase and the other label formatters: one-branch text building.
- locateDagError: only the splitting of a key at the separator, not the matching of server messages.
- defaultParams, the NDVI band prefills, the copying of the first load's collection and bands, and the served definitions: parameters of a new card; typing does not read them.
- resultIssue, branchableInto, the change template, joinOrder, branchWindows and the intersection of date windows.
- The panel's edge identity: an edge is removed by reference in the source and by value here; on well-formed wiring no two edges are equal.
- Reordering of cards for display: the canvas lists its cards in creation order.
- UTF-8 replacement of malformed bytes by the query reader, and strings with lone surrogates: text is the bytes of well-formed UTF-8.
- Storage of the app preference and the choice between URL, storage and default.
- Painting, the inspector, feed scrolling, the first-render latency, the parsing of trace envelopes and the swipe position of a comparison.
- Whether a layer's name may itself start with a side's prefix: keys are the strings the source builds, collisions included, and no statement about the store needs them apart.
- Several catalogs sharing the thumbnail cache: one catalog is modelled.
- HTTP, promises' scheduling beyond "at most once each and after what they wait for", lazy loading of previews by scrolling, and object URLs.
- The server's compiler and planner: `Graph.Apply` and `Stages.Transition` are taken as the typing specification.
- DOM, rendering, events, the map and all other modules of the client.
