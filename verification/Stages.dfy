/** The stage model of web/src/authoring-model.ts: what flows between pipeline
    steps, the stage transition of every step, and the linear chain's insertion rule. */
module Stages {
  import opened Wrappers

  datatype Kind = Multi | Gray | Udf

  /** The value flowing between steps: its kind, and whether it has been scaled. */
  datatype Stage = Stage(kind: Kind, scaled: bool)

  const LOAD_STAGE := Stage(Multi, false)

  /** Process ids. `Other` is any id outside the table of top-level processes
      (arithmetic and `array_element` among them). */
  datatype Process =
    | LoadCollection
    | FilterTemporal
    | Ndvi
    | ReduceDimension
    | RunUdf
    | LinearScaleRange
    | MergeCubes
    | SaveResult
    | Other(name: string)

  /** A step that collapses the bands. */
  predicate Reducing(p: Process) {
    p.Ndvi? || p.ReduceDimension? || p.RunUdf?
  }

  /** One stage transition; `None` where the compiler would reject the step. */
  function Transition(stage: Stage, process: Process): Option<Stage> {
    match process
    case Ndvi => if stage.kind != Multi || stage.scaled then None else Some(Stage(Gray, false))
    case ReduceDimension => if stage.kind != Multi || stage.scaled then None else Some(Stage(Gray, false))
    case RunUdf => if stage.kind != Multi || stage.scaled then None else Some(Stage(Udf, false))
    case LinearScaleRange => if stage.scaled then None else Some(Stage(stage.kind, true))
    case _ => None
  }

  /** The stage a chain of steps produces from `stage`. */
  function RunChain(stage: Stage, chain: seq<Process>): Option<Stage>
    decreases |chain|
  {
    if chain == [] then Some(stage)
    else
      match Transition(stage, chain[0])
      case None => None
      case Some(next) => RunChain(next, chain[1..])
  }

  /** Running a chain one step further is one more transition. */
  lemma {:induction false} RunChainSnoc(stage: Stage, chain: seq<Process>, p: Process)
    ensures RunChain(stage, chain + [p])
         == match RunChain(stage, chain) case None => None case Some(s) => Transition(s, p)
    decreases |chain|
  {
    if chain == [] {
    } else {
      assert (chain + [p])[1..] == chain[1..] + [p];
      match Transition(stage, chain[0]) {
        case None =>
        case Some(next) => RunChainSnoc(next, chain[1..], p);
      }
    }
  }

  /** What a chain that runs looks like: nothing, a reducing step, a scale, or a reducing step
      and then a scale. */
  predicate RunsThrough(chain: seq<Process>) {
    |chain| <= 2 &&
    (|chain| >= 1 ==> chain[0] in {Ndvi, ReduceDimension, RunUdf} || (|chain| == 1 && chain[0] == LinearScaleRange)) &&
    (|chain| == 2 ==> chain[1] == LinearScaleRange)
  }

  /** The stage such a chain ends in, by what is in it. */
  predicate EndsIn(chain: seq<Process>, s: Stage) {
    (s.kind == Udf <==> RunUdf in chain) && (s.kind == Gray <==> Ndvi in chain || ReduceDimension in chain) &&
    (s.scaled <==> LinearScaleRange in chain)
  }

  /** A chain runs from the load to its end exactly when it looks so; and where it ends is
      read off its steps. */
  lemma {:induction false} ChainShape(chain: seq<Process>)
    ensures RunChain(LOAD_STAGE, chain).Some? <==> RunsThrough(chain)
    ensures RunChain(LOAD_STAGE, chain).Some? ==> EndsIn(chain, RunChain(LOAD_STAGE, chain).value)
  {
    hide RunChain, RunsThrough, EndsIn, Transition;
    if chain == [] {
      EmptyShape();
    } else {
      var front, last := chain[..|chain| - 1], chain[|chain| - 1];
      assert chain == front + [last];
      ChainShape(front);
      RunChainSnoc(LOAD_STAGE, front, last);
      RunsFront(front, last);
      if RunsThrough(front) { ShapeSnoc(front, last, RunChain(LOAD_STAGE, front).value); }
    }
  }

  lemma EmptyShape()
    ensures RunChain(LOAD_STAGE, []) == Some(LOAD_STAGE) && RunsThrough([]) && EndsIn([], LOAD_STAGE)
  {
  }

  lemma RunsFront(front: seq<Process>, last: Process)
    ensures RunsThrough(front + [last]) ==> RunsThrough(front)
  {
    var chain := front + [last];
    assert |front| >= 1 ==> front[0] == chain[0];
  }

  lemma ShapeSnoc(front: seq<Process>, last: Process, s: Stage)
    requires RunsThrough(front) && EndsIn(front, s)
    ensures Transition(s, last).Some? <==> RunsThrough(front + [last])
    ensures Transition(s, last).Some? ==> EndsIn(front + [last], Transition(s, last).value)
  {
    var chain := front + [last];
    assert forall p :: p in chain <==> p in front || p == last;
    if front == [] {
      assert chain == [last];
    } else if |front| == 1 {
      assert front == [front[0]] && chain == [front[0], last];
    } else {
      assert front == [front[0], LinearScaleRange];
    }
  }

  /** The stage after the whole middle chain, from the load head. */
  method FinalStage(middle: seq<Process>) returns (stage: Option<Stage>)
    ensures stage == RunChain(LOAD_STAGE, middle)
    ensures stage.Some? <==> RunsThrough(middle)
    ensures stage.Some? ==> EndsIn(middle, stage.value)
  {
    ChainShape(middle);
    var current := LOAD_STAGE;
    for i := 0 to |middle|
      invariant RunChain(LOAD_STAGE, middle) == RunChain(current, middle[i..])
    {
      var next := Transition(current, middle[i]);
      if next == None {
        return None;
      }
      assert middle[i..][1..] == middle[i + 1..];
      current := next.value;
    }
    return Some(current);
  }

  /** `process` inserted at `gap`. */
  function Inserted(middle: seq<Process>, gap: nat, process: Process): seq<Process>
    requires gap <= |middle|
  {
    middle[..gap] + [process] + middle[gap..]
  }

  /** Whether the whole chain still types with `process` at `gap`. */
  predicate CanInsertAt(middle: seq<Process>, gap: nat, process: Process)
    requires gap <= |middle|
  {
    RunChain(LOAD_STAGE, Inserted(middle, gap, process)).Some?
  }

  /** The served ids the palette asks about beyond a process's own. */
  datatype Served = Served(processes: set<Process>, arrayElement: bool, arithmetic: bool)

  /** Whether the palette may offer `p` at all: it is served, and a formula also
      needs `array_element` and some arithmetic. */
  predicate Offered(served: Served, p: Process) {
    p in served.processes &&
    (p.ReduceDimension? ==> served.arrayElement && served.arithmetic)
  }

  const MIDDLE_PROCESSES: seq<Process> := [Ndvi, ReduceDimension, RunUdf, LinearScaleRange]

  /** Those of `ps` that may be offered and admitted at `gap`, in order. */
  function AdmittedAt(middle: seq<Process>, gap: nat, served: Served, ps: seq<Process>): seq<Process>
    requires gap <= |middle|
  {
    if ps == [] then []
    else
      (if Offered(served, ps[0]) && CanInsertAt(middle, gap, ps[0]) then [ps[0]] else [])
      + AdmittedAt(middle, gap, served, ps[1..])
  }

  /** The middle processes admitted at `gap`. */
  function InsertableAt(middle: seq<Process>, gap: nat, served: Served): seq<Process>
    requires gap <= |middle|
  {
    AdmittedAt(middle, gap, served, MIDDLE_PROCESSES)
  }

  /** `p`, where it is served and the chain still runs with it in the gap. */
  function OfferedAt(middle: seq<Process>, gap: nat, served: Served, p: Process): seq<Process>
    requires gap <= |middle|
  {
    if p in served.processes && (p == ReduceDimension ==> served.arrayElement && served.arithmetic) &&
       RunsThrough(middle[..gap] + [p] + middle[gap..])
    then [p] else []
  }

  /** The palette at a gap, process by process: the four middle processes, in this order, each
      where it is served (a formula also needs `array_element` and arithmetic) and leaves the
      chain one that runs. */
  lemma InsertableExactly(middle: seq<Process>, gap: nat, served: Served)
    requires gap <= |middle|
    ensures InsertableAt(middle, gap, served)
         == OfferedAt(middle, gap, served, Ndvi) + OfferedAt(middle, gap, served, ReduceDimension)
            + OfferedAt(middle, gap, served, RunUdf) + OfferedAt(middle, gap, served, LinearScaleRange)
  {
    hide AdmittedAt, OfferedAt;
    var ps := MIDDLE_PROCESSES;
    AdmittedFirst(middle, gap, served, ps);
    AdmittedFirst(middle, gap, served, ps[1..]);
    AdmittedFirst(middle, gap, served, ps[2..]);
    AdmittedFirst(middle, gap, served, ps[3..]);
    AdmittedNone(middle, gap, served);
    assert ps[1..][1..] == ps[2..] && ps[2..][1..] == ps[3..] && ps[3..][1..] == [];
  }

  lemma AdmittedFirst(middle: seq<Process>, gap: nat, served: Served, ps: seq<Process>)
    requires gap <= |middle| && ps != []
    ensures AdmittedAt(middle, gap, served, ps)
         == OfferedAt(middle, gap, served, ps[0]) + AdmittedAt(middle, gap, served, ps[1..])
  {
    hide RunsThrough, RunChain;
    ChainShape(Inserted(middle, gap, ps[0]));
  }

  lemma AdmittedNone(middle: seq<Process>, gap: nat, served: Served)
    requires gap <= |middle|
    ensures AdmittedAt(middle, gap, served, []) == []
  {
  }
}
