/** The formula builder of web/src/authoring-model.ts: its rows, what blocks them, and
    their lowering to a reducer child graph. */
module Formula {
  import opened Wrappers
  import opened Json
  import opened Decimals

  datatype FormulaOp = Add | Subtract | Multiply | Divide

  function OpName(op: FormulaOp): string {
    match op
    case Add => "add"
    case Subtract => "subtract"
    case Multiply => "multiply"
    case Divide => "divide"
  }

  /** A band of the loaded cube, a number as typed, or another line's result. */
  datatype Operand = Band(band: string) | Number(text: string) | Line(index: int)

  const EMPTY_OPERAND := Band("")

  datatype FormulaRow = FormulaRow(op: FormulaOp, left: Operand, right: Operand)

  // ----- What blocks a formula -----

  datatype Side = Left | Right

  datatype Issue =
    | AddALine
    | PickValue(line: nat, side: Side)
    | NotLoaded(line: nat, band: string)
    | NotANumber(line: nat, side: Side)
    | OnlyLinesAbove(line: nat)

  /** The number reader: which texts read as numbers is a parameter. */
  type Reader = string -> bool

  function OperandIssues(operand: Operand, side: Side, index: nat, bands: seq<string>, numeric: Reader): seq<Issue> {
    match operand
    case Band(band) =>
      if band == "" then [PickValue(index + 1, side)]
      else if band !in bands then [NotLoaded(index + 1, band)]
      else []
    case Number(text) => if !numeric(text) then [NotANumber(index + 1, side)] else []
    case Line(i) => if i >= index || i < 0 then [OnlyLinesAbove(index + 1)] else []
  }

  function RowIssues(rows: seq<FormulaRow>, bands: seq<string>, numeric: Reader): seq<Issue> {
    if rows == [] then []
    else
      var i := |rows| - 1;
      RowIssues(rows[..i], bands, numeric)
      + OperandIssues(rows[i].left, Left, i, bands, numeric)
      + OperandIssues(rows[i].right, Right, i, bands, numeric)
  }

  /** What still blocks the formula, line by line. */
  method FormulaIssues(rows: seq<FormulaRow>, bands: seq<string>, numeric: Reader) returns (issues: seq<Issue>)
    ensures issues == if rows == [] then [AddALine] else RowIssues(rows, bands, numeric)
    ensures issues == [] <==> Complete(rows, bands, numeric)
  {
    IssueFree(rows, bands, numeric);
    if rows == [] {
      return [AddALine];
    }
    issues := [];
    for i := 0 to |rows|
      invariant issues == RowIssues(rows[..i], bands, numeric)
    {
      assert rows[..i + 1][..i] == rows[..i];
      issues := issues + OperandIssues(rows[i].left, Left, i, bands, numeric);
      issues := issues + OperandIssues(rows[i].right, Right, i, bands, numeric);
    }
    assert rows[..|rows|] == rows;
  }

  predicate OperandOk(operand: Operand, index: nat, bands: seq<string>, numeric: Reader) {
    match operand
    case Band(band) => band != "" && band in bands
    case Number(text) => numeric(text)
    case Line(i) => 0 <= i < index
  }

  predicate RowsOk(rows: seq<FormulaRow>, bands: seq<string>, numeric: Reader) {
    forall i :: 0 <= i < |rows| ==>
      OperandOk(rows[i].left, i, bands, numeric) && OperandOk(rows[i].right, i, bands, numeric)
  }

  /** The formula has a line, and every operand is set rightly. */
  predicate Complete(rows: seq<FormulaRow>, bands: seq<string>, numeric: Reader) {
    rows != [] && RowsOk(rows, bands, numeric)
  }

  /** Nothing blocks a formula exactly when every operand is a loaded band, a number or a
      line above. */
  lemma {:induction false} IssueFree(rows: seq<FormulaRow>, bands: seq<string>, numeric: Reader)
    ensures RowIssues(rows, bands, numeric) == [] <==> RowsOk(rows, bands, numeric)
  {
    if rows != [] {
      var front := rows[..|rows| - 1];
      IssueFree(front, bands, numeric);
      assert forall i :: 0 <= i < |front| ==> front[i] == rows[i];
      assert RowsOk(rows, bands, numeric) ==> RowsOk(front, bands, numeric);
    }
  }

  function SideOf(row: FormulaRow, side: Side): Operand {
    if side == Left then row.left else row.right
  }

  /** The operand of line `i + 1` at a side is what the issue says. */
  predicate Blocks(row: FormulaRow, i: nat, side: Side, bands: seq<string>, numeric: Reader, issue: Issue) {
    var operand := SideOf(row, side);
    match issue
    case AddALine => false
    case PickValue(line, at) => line == i + 1 && at == side && operand == Band("")
    case NotLoaded(line, band) => line == i + 1 && operand == Band(band) && band != "" && band !in bands
    case NotANumber(line, at) => line == i + 1 && at == side && operand.Number? && !numeric(operand.text)
    case OnlyLinesAbove(line) => line == i + 1 && operand.Line? && !(0 <= operand.index < i)
  }

  /** Some operand of the rows is what the issue says. */
  predicate Raised(rows: seq<FormulaRow>, bands: seq<string>, numeric: Reader, issue: Issue) {
    exists i :: 0 <= i < |rows| && RaisedAt(rows[i], i, bands, numeric, issue)
  }

  predicate RaisedAt(row: FormulaRow, i: nat, bands: seq<string>, numeric: Reader, issue: Issue) {
    Blocks(row, i, Left, bands, numeric, issue) || Blocks(row, i, Right, bands, numeric, issue)
  }

  lemma OperandRaises(row: FormulaRow, i: nat, side: Side, bands: seq<string>, numeric: Reader, issue: Issue)
    ensures issue in OperandIssues(SideOf(row, side), side, i, bands, numeric)
       <==> Blocks(row, i, side, bands, numeric, issue)
    ensures |OperandIssues(SideOf(row, side), side, i, bands, numeric)| <= 1
  {
  }

  /** An issue is raised exactly when some operand is what it says: on its line, and at its
      side. */
  lemma {:induction false} IssuesExactly(rows: seq<FormulaRow>, bands: seq<string>, numeric: Reader, issue: Issue)
    ensures issue in RowIssues(rows, bands, numeric) <==> Raised(rows, bands, numeric, issue)
  {
    hide Blocks, OperandIssues;
    if rows != [] {
      var i := |rows| - 1;
      var front, last := rows[..i], rows[i];
      IssuesExactly(front, bands, numeric, issue);
      OperandRaises(last, i, Left, bands, numeric, issue);
      OperandRaises(last, i, Right, bands, numeric, issue);
      assert forall j :: 0 <= j < i ==> front[j] == rows[j];
      hide RaisedAt;
      RaisedSnoc(rows, bands, numeric, issue);
    }
  }

  lemma RaisedSnoc(rows: seq<FormulaRow>, bands: seq<string>, numeric: Reader, issue: Issue)
    requires rows != []
    ensures var i := |rows| - 1;
            Raised(rows, bands, numeric, issue) <==>
              Raised(rows[..i], bands, numeric, issue) || RaisedAt(rows[i], i, bands, numeric, issue)
  {
    hide RaisedAt;
    var i := |rows| - 1;
    if j :| 0 <= j < |rows| && RaisedAt(rows[j], j, bands, numeric, issue) {
      if j < i { assert rows[..i][j] == rows[j]; }
    }
    if j :| 0 <= j < i && RaisedAt(rows[..i][j], j, bands, numeric, issue) { assert rows[..i][j] == rows[j]; }
  }

  function LineOf(issue: Issue): nat {
    if issue.AddALine? then 0 else issue.line
  }

  /** `b` does not come before `a` on the canvas of lines: a later line, or not a left side
      after a right one. */
  predicate Follows(a: Issue, b: Issue) {
    LineOf(a) < LineOf(b) ||
    (LineOf(a) == LineOf(b) && ((a.PickValue? || a.NotANumber?) && (b.PickValue? || b.NotANumber?) ==>
      a.side == Left || b.side == Right))
  }

  predicate InOrder(issues: seq<Issue>) {
    forall j, k :: 0 <= j < k < |issues| ==> Follows(issues[j], issues[k])
  }

  /** Issues are told line by line, the left side before the right. */
  lemma {:induction false} IssuesInOrder(rows: seq<FormulaRow>, bands: seq<string>, numeric: Reader)
    ensures InOrder(RowIssues(rows, bands, numeric))
    ensures forall issue :: issue in RowIssues(rows, bands, numeric) ==> 1 <= LineOf(issue) <= |rows|
  {
    if rows != [] {
      var i := |rows| - 1;
      var before := RowIssues(rows[..i], bands, numeric);
      IssuesInOrder(rows[..i], bands, numeric);
      var left := OperandIssues(rows[i].left, Left, i, bands, numeric);
      var right := OperandIssues(rows[i].right, Right, i, bands, numeric);
      OperandAt(rows[i].left, Left, i, bands, numeric);
      OperandAt(rows[i].right, Right, i, bands, numeric);
      hide RowIssues, OperandIssues;
      OrderAppend(before, left);
      OrderAppend(before + left, right);
    }
  }

  lemma OperandAt(operand: Operand, side: Side, i: nat, bands: seq<string>, numeric: Reader)
    ensures var issues := OperandIssues(operand, side, i, bands, numeric);
            |issues| <= 1 && forall issue :: issue in issues ==>
              LineOf(issue) == i + 1 && (issue.PickValue? || issue.NotANumber? ==> issue.side == side)
  {
  }

  lemma OrderAppend(a: seq<Issue>, b: seq<Issue>)
    requires InOrder(a) && |b| <= 1 && forall x, y :: x in a && y in b ==> Follows(x, y)
    ensures InOrder(a + b)
  {
    hide Follows;
    forall j, k | 0 <= j < k < |a + b|
      ensures Follows((a + b)[j], (a + b)[k])
    {
      assert (a + b)[j] == a[j] && a[j] in a;
      if k < |a| { assert (a + b)[k] == a[k]; } else { assert (a + b)[k] in b; }
    }
  }

  // ----- The reducer graph -----

  /** A record in insertion order. */
  datatype Record = Record(keys: seq<string>, nodes: Scope)

  function With(r: Record, key: string, node: Json): Record {
    Record(if key in r.nodes then r.keys else r.keys + [key], r.nodes[key := node])
  }

  function RowKey(i: nat): string {
    ['r'] + Decimal(i + 1)
  }

  function BandKey(i: nat): string {
    ['b'] + Decimal(i + 1)
  }

  /** The key a line reference is written as, whatever number it holds. */
  function LineKey(index: int): string {
    if index + 1 >= 0 then ['r'] + Decimal(index + 1) else ['r', '-'] + Decimal(-(index + 1))
  }

  /** Bands and lines are numbered from one, and a line is referred to by the key it has. */
  lemma KeysWritten(i: nat)
    ensures RowKey(i) == "r" + Decimal(i + 1) && BandKey(i) == "b" + Decimal(i + 1) && LineKey(i) == RowKey(i)
  {
    assert "r" == ['r'] && "b" == ['b'];
  }

  lemma KeysDistinct(i: nat, j: nat)
    ensures RowKey(i) == RowKey(j) ==> i == j
    ensures BandKey(i) == BandKey(j) ==> i == j
    ensures RowKey(i) != BandKey(j)
  {
    assert RowKey(i)[1..] == Decimal(i + 1) && RowKey(j)[1..] == Decimal(j + 1);
    assert BandKey(i)[1..] == Decimal(i + 1) && BandKey(j)[1..] == Decimal(j + 1);
    assert RowKey(i)[0] != BandKey(j)[0];
    if Decimal(i + 1) == Decimal(j + 1) { DecimalInjective(i + 1, j + 1); }
  }

  /** The bands used so far, in order of first use, once `operand` is read. */
  function NoteBand(bands: seq<string>, operand: Operand): seq<string> {
    if operand.Band? && operand.band !in bands then bands + [operand.band] else bands
  }

  function NoteRow(bands: seq<string>, row: FormulaRow): seq<string> {
    NoteBand(NoteBand(bands, row.left), row.right)
  }

  function BandsOf(rows: seq<FormulaRow>): seq<string> {
    if rows == [] then [] else NoteRow(BandsOf(rows[..|rows| - 1]), rows[|rows| - 1])
  }

  function IndexOf(bands: seq<string>, band: string): nat
    requires band in bands
    ensures IndexOf(bands, band) < |bands| && bands[IndexOf(bands, band)] == band
  {
    if bands[0] == band then 0 else 1 + IndexOf(bands[1..], band)
  }

  /** An operand as an argument, its band among those noted. */
  function ArgOf(bands: seq<string>, operand: Operand): Json
    requires operand.Band? ==> operand.band in bands
  {
    match operand
    case Band(band) => Ref(BandKey(IndexOf(bands, band)))
    case Number(text) => Num(text)
    case Line(i) => Ref(LineKey(i))
  }

  function BandNode(band: string): Json {
    Obj(map["process_id" := Str("array_element"),
            "arguments" := Obj(map["data" := Obj(map["from_parameter" := Str("data")]), "label" := Str(band)])])
  }

  function RowNode(op: FormulaOp, x: Json, y: Json, result: bool): Json {
    var args := Obj(map["x" := x, "y" := y]);
    if result then Obj(map["process_id" := Str(OpName(op)), "arguments" := args, "result" := Bool(true)])
    else Obj(map["process_id" := Str(OpName(op)), "arguments" := args])
  }

  predicate RowNoted(bands: seq<string>, row: FormulaRow) {
    (row.left.Band? ==> row.left.band in bands) && (row.right.Band? ==> row.right.band in bands)
  }

  /** The node of line `j` of `rows`, the bands noted. */
  function LineNode(rows: seq<FormulaRow>, bands: seq<string>, j: nat): Json
    requires j < |rows| && RowNoted(bands, rows[j])
  {
    RowNode(rows[j].op, ArgOf(bands, rows[j].left), ArgOf(bands, rows[j].right), j == |rows| - 1)
  }

  ghost predicate BandNodes(r: Record, bands: seq<string>) {
    forall j :: 0 <= j < |bands| ==> BandKey(j) in r.nodes && r.nodes[BandKey(j)] == BandNode(bands[j])
  }

  ghost predicate LineNodes(rows: seq<FormulaRow>, i: nat, r: Record, bands: seq<string>)
    requires i <= |rows|
  {
    forall j :: 0 <= j < i ==>
      (RowKey(j) in r.nodes && RowNoted(bands, rows[j]) && r.nodes[RowKey(j)] == LineNode(rows, bands, j))
  }

  ghost predicate OnlyKeys(r: Record, i: nat, bands: seq<string>) {
    forall key :: key in r.nodes ==>
      (exists j :: 0 <= j < |bands| && key == BandKey(j)) || (exists j :: 0 <= j < i && key == RowKey(j))
  }

  /** The graph after the first `i` lines of a formula: one node per band noted, one per
      line, and no other. */
  ghost predicate Reducer(rows: seq<FormulaRow>, i: nat, r: Record, bands: seq<string>)
    requires i <= |rows|
  {
    BandNodes(r, bands) && LineNodes(rows, i, r, bands) && OnlyKeys(r, i, bands)
  }

  predicate Distinct(items: seq<string>) {
    forall i, j :: 0 <= i < j < |items| ==> items[i] != items[j]
  }

  /** References outside child graphs name one of `ids`. */
  predicate RefsAmong(j: Json, ids: seq<string>) {
    match j
    case Arr(items) => forall i :: 0 <= i < |items| ==> RefsAmong(items[i], ids)
    case Obj(fields) => forall k :: k in fields ==> RefsAmong(fields[k], ids)
    case Ref(id) => id in ids
    case _ => true
  }

  /** Each key is written once. */
  ghost predicate Written(r: Record) {
    Distinct(r.keys) && (forall key :: key in r.keys <==> key in r.nodes)
  }

  /** Each node's references name nodes written before it. */
  ghost predicate EarlierRefs(r: Record) {
    forall p :: 0 <= p < |r.keys| ==> r.keys[p] in r.nodes && RefsAmong(r.nodes[r.keys[p]], r.keys[..p])
  }

  /** Every line reference points to a line above. */
  predicate LinesAbove(rows: seq<FormulaRow>) {
    forall i :: 0 <= i < |rows| ==> Above(rows[i].left, i) && Above(rows[i].right, i)
  }

  predicate Above(operand: Operand, i: int) {
    operand.Line? ==> 0 <= operand.index < i
  }

  lemma IndexStable(bands: seq<string>, more: seq<string>, band: string)
    requires band in bands
    ensures IndexOf(bands + more, band) == IndexOf(bands, band)
  {
    if bands[0] != band {
      assert (bands + more)[1..] == bands[1..] + more;
      IndexStable(bands[1..], more, band);
    }
  }

  lemma IndexFirst(bands: seq<string>, band: string)
    requires band !in bands
    ensures IndexOf(bands + [band], band) == |bands|
  {
    if bands != [] {
      assert (bands + [band])[1..] == bands[1..] + [band];
      IndexFirst(bands[1..], band);
    }
  }

  lemma ArgStable(bands: seq<string>, more: seq<string>, operand: Operand)
    requires operand.Band? ==> operand.band in bands
    ensures ArgOf(bands + more, operand) == ArgOf(bands, operand)
  {
    if operand.Band? { IndexStable(bands, more, operand.band); }
  }

  /** Adding a node no earlier node is keyed by, with references to earlier keys only. */
  lemma WithWritten(r: Record, key: string, node: Json)
    requires Written(r) && key !in r.nodes
    ensures Written(With(r, key, node))
    ensures EarlierRefs(r) && RefsAmong(node, r.keys) ==> EarlierRefs(With(r, key, node))
  {
    if EarlierRefs(r) && RefsAmong(node, r.keys) { WithEarlierRefs(r, key, node); }
  }

  lemma WithEarlierRefs(r: Record, key: string, node: Json)
    requires Written(r) && key !in r.nodes && EarlierRefs(r) && RefsAmong(node, r.keys)
    ensures EarlierRefs(With(r, key, node))
  {
    var r' := With(r, key, node);
    forall p | 0 <= p < |r'.keys|
      ensures r'.keys[p] in r'.nodes && RefsAmong(r'.nodes[r'.keys[p]], r'.keys[..p])
    {
      if p < |r.keys| {
        assert r.keys[p] in r.nodes;
        assert r'.keys[..p] == r.keys[..p];
      } else {
        assert r'.keys[..p] == r.keys;
      }
    }
  }

  lemma BandNodeRefs(band: string, ids: seq<string>)
    ensures RefsAmong(BandNode(band), ids)
    ensures !IsResult(BandNode(band)) && NodeInertChildren(BandNode(band))
  {
    var data := Obj(map["from_parameter" := Str("data")]);
    var args := Obj(map["data" := data, "label" := Str(band)]);
    assert RefsAmong(data, ids) && InertChildren(data);
    assert RefsAmong(args, ids) && InertChildren(args);
    assert |"result"| == 6 && |"process_id"| == 10 && |"arguments"| == 9;
  }

  lemma RowNodeRefs(op: FormulaOp, x: Json, y: Json, result: bool, ids: seq<string>)
    ensures RefsAmong(x, ids) && RefsAmong(y, ids) ==> RefsAmong(RowNode(op, x, y, result), ids)
    ensures IsResult(RowNode(op, x, y, result)) <==> result
    ensures InertChildren(x) && InertChildren(y) ==> NodeInertChildren(RowNode(op, x, y, result))
  {
    var args := Obj(map["x" := x, "y" := y]);
    var fields := RowNode(op, x, y, result).fields;
    assert RefsAmong(x, ids) && RefsAmong(y, ids) ==> RefsAmong(args, ids);
    assert InertChildren(x) && InertChildren(y) ==> InertChildren(args);
    assert |"result"| == 6 && |"process_id"| == 10 && |"arguments"| == 9;
    if result { assert fields["result"] == Bool(true); } else { assert "result" !in fields; }
  }

  /** A new band takes the next key. */
  lemma NoteBandReducer(rows: seq<FormulaRow>, i: nat, r: Record, bands: seq<string>, band: string)
    requires i <= |rows| && Reducer(rows, i, r, bands) && Written(r)
    ensures BandKey(|bands|) !in r.nodes
    ensures var r' := With(r, BandKey(|bands|), BandNode(band));
            Reducer(rows, i, r', bands + [band]) && Written(r') && (EarlierRefs(r) ==> EarlierRefs(r'))
  {
    hide Written, EarlierRefs, LineNodes, BandNodes, BandNode, RefsAmong, BandKey, RowKey;
    var key := BandKey(|bands|);
    assert key !in r.nodes by { BandKeyFresh(r, i, bands); }
    BandNodeRefs(band, r.keys);
    WithWritten(r, key, BandNode(band));
    BandNodesSnoc(r, bands, band);
    forall j | 0 <= j < i
      ensures RowKey(j) != key
    {
      KeysDistinct(j, |bands|);
    }
    LineNodesKept(rows, i, r, bands, key, band);
    var r', bands' := With(r, key, BandNode(band)), bands + [band];
    forall k | k in r'.nodes
      ensures (exists j :: 0 <= j < |bands'| && k == BandKey(j)) || (exists j :: 0 <= j < i && k == RowKey(j))
    {
      if k == key {
        assert k == BandKey(|bands|) && |bands| < |bands'|;
      } else {
        assert k in r.nodes;
      }
    }
  }

  lemma BandKeyFresh(r: Record, i: nat, bands: seq<string>)
    requires OnlyKeys(r, i, bands)
    ensures BandKey(|bands|) !in r.nodes
  {
    hide BandKey, RowKey;
    forall j: nat
      ensures BandKey(j) == BandKey(|bands|) ==> j == |bands|
      ensures RowKey(j) != BandKey(|bands|)
    {
      KeysDistinct(j, |bands|);
      KeysDistinct(|bands|, j);
    }
  }

  lemma BandNodesSnoc(r: Record, bands: seq<string>, band: string)
    requires BandNodes(r, bands)
    ensures BandNodes(With(r, BandKey(|bands|), BandNode(band)), bands + [band])
  {
    hide BandKey, BandNode;
    forall j: nat
      ensures BandKey(j) == BandKey(|bands|) ==> j == |bands|
    {
      KeysDistinct(j, |bands|);
    }
  }

  lemma LineNodesKept(rows: seq<FormulaRow>, i: nat, r: Record, bands: seq<string>, key: string, band: string)
    requires i <= |rows| && LineNodes(rows, i, r, bands)
    requires forall j :: 0 <= j < i ==> RowKey(j) != key
    ensures LineNodes(rows, i, With(r, key, BandNode(band)), bands + [band])
  {
    hide RowKey, BandNode, RowNode, ArgOf;
    forall j | 0 <= j < i
      ensures RowNoted(bands + [band], rows[j]) && LineNode(rows, bands + [band], j) == LineNode(rows, bands, j)
    {
      assert RowKey(j) in r.nodes;
      ArgStable(bands, [band], rows[j].left);
      ArgStable(bands, [band], rows[j].right);
    }
  }

  lemma NoteRowReducer(rows: seq<FormulaRow>, i: nat, r: Record, bands: seq<string>)
    requires i < |rows| && Reducer(rows, i, r, bands) && Written(r) && RowNoted(bands, rows[i])
    ensures RowKey(i) !in r.nodes
    ensures var r' := With(r, RowKey(i), LineNode(rows, bands, i));
            Reducer(rows, i + 1, r', bands) && Written(r') &&
            (EarlierRefs(r) && LinesAbove(rows) ==> EarlierRefs(r'))
  {
    var key, node := RowKey(i), LineNode(rows, bands, i);
    forall j: nat
      ensures RowKey(j) == key ==> j == i
      ensures BandKey(j) != key
    {
      KeysDistinct(j, i);
      KeysDistinct(i, j);
    }
    var r' := With(r, key, node);
    assert OnlyKeys(r', i + 1, bands) by {
      forall k | k in r'.nodes
        ensures (exists j :: 0 <= j < |bands| && k == BandKey(j)) || (exists j :: 0 <= j < i + 1 && k == RowKey(j))
      {
        if k != key { assert k in r.nodes; }
      }
    }
    WithWritten(r, key, node);
    if LinesAbove(rows) {
      ArgWritten(rows, i, r, bands, rows[i].left);
      ArgWritten(rows, i, r, bands, rows[i].right);
      RowNodeRefs(rows[i].op, ArgOf(bands, rows[i].left), ArgOf(bands, rows[i].right), i == |rows| - 1, r.keys);
    }
  }

  lemma ArgWritten(rows: seq<FormulaRow>, i: nat, r: Record, bands: seq<string>, operand: Operand)
    requires i <= |rows| && Reducer(rows, i, r, bands) && Written(r)
    requires (operand.Band? ==> operand.band in bands) && Above(operand, i)
    ensures RefsAmong(ArgOf(bands, operand), r.keys)
  {
    match operand
    case Band(band) => assert BandKey(IndexOf(bands, band)) in r.nodes;
    case Number(_) =>
    case Line(k) => assert RowKey(k) in r.nodes;
  }

  /** Each noted band has its key, by position. */
  ghost predicate Keyed(bandKeys: map<string, string>, bands: seq<string>) {
    bandKeys.Keys == (set b | b in bands) && |bandKeys| == |bands| && Distinct(bands) &&
    (forall b :: b in bands ==> bandKeys[b] == BandKey(IndexOf(bands, b)))
  }

  lemma KeyedSnoc(bandKeys: map<string, string>, bands: seq<string>, band: string)
    requires Keyed(bandKeys, bands) && band !in bands
    ensures Keyed(bandKeys[band := BandKey(|bands|)], bands + [band])
  {
    hide BandKey, IndexOf, Distinct;
    var keys', bands' := bandKeys[band := BandKey(|bands|)], bands + [band];
    assert keys'.Keys == bandKeys.Keys + {band};
    assert |keys'| == |bands'| by { assert |keys'| == |keys'.Keys| && |bandKeys| == |bandKeys.Keys|; }
    assert Distinct(bands') by { DistinctSnoc(bands, band); }
    forall b | b in bands'
      ensures keys'[b] == BandKey(IndexOf(bands', b))
    {
      IndexSnoc(bands, band, b);
    }
  }

  lemma IndexSnoc(bands: seq<string>, band: string, b: string)
    requires band !in bands && (b in bands || b == band)
    ensures IndexOf(bands + [band], b) == if b == band then |bands| else IndexOf(bands, b)
  {
    hide IndexOf;
    if b == band { IndexFirst(bands, band); } else { IndexStable(bands, [band], b); }
  }

  lemma DistinctSnoc(items: seq<string>, item: string)
    requires Distinct(items) && item !in items
    ensures Distinct(items + [item])
  {
  }

  /** An operand as an argument; a band not met before gets the next key and its node. */
  method Arg(r: Record, bandKeys: map<string, string>, operand: Operand,
             ghost rows: seq<FormulaRow>, ghost i: nat, ghost bands: seq<string>)
      returns (arg: Json, r': Record, bandKeys': map<string, string>)
    requires i <= |rows| && Reducer(rows, i, r, bands) && Written(r) && Keyed(bandKeys, bands)
    ensures var bands' := NoteBand(bands, operand);
            Reducer(rows, i, r', bands') && Written(r') && Keyed(bandKeys', bands') &&
            (operand.Band? ==> operand.band in bands') && arg == ArgOf(bands', operand)
    ensures EarlierRefs(r) ==> EarlierRefs(r')
  {
    hide Reducer, Written, EarlierRefs, IndexOf, Distinct, BandKey, BandNode;
    r', bandKeys' := r, bandKeys;
    match operand
    case Number(text) => arg := Num(text);
    case Line(index) => arg := Ref(LineKey(index));
    case Band(band) =>
      if band !in bandKeys {
        NoteBandReducer(rows, i, r, bands, band);
        KeyedSnoc(bandKeys, bands, band);
        var key := BandKey(|bandKeys|);
        bandKeys' := bandKeys[band := key];
        r' := With(r, key, BandNode(band));
      }
      arg := Ref(bandKeys'[band]);
  }

  /** The reducer child graph of a formula: one `array_element` per distinct band, one
      node per line, the last line's marked as the result; and when every line refers to
      lines above, every reference names a node written before. */
  method BuildReducerGraph(rows: seq<FormulaRow>) returns (r: Record)
    ensures Reducer(rows, |rows|, r, BandsOf(rows)) && Written(r)
    ensures LinesAbove(rows) ==> EarlierRefs(r)
  {
    hide Reducer, Keyed, Written, EarlierRefs, ArgOf, LinesAbove, RowNode, IndexOf, BandKey;
    r := Record([], map[]);
    var bandKeys := map[];
    EmptyReducer(rows);
    for i := 0 to |rows|
      invariant Reducer(rows, i, r, BandsOf(rows[..i])) && Keyed(bandKeys, BandsOf(rows[..i])) && Written(r)
      invariant LinesAbove(rows) ==> EarlierRefs(r)
    {
      ghost var bands := BandsOf(rows[..i]);
      assert rows[..i + 1][..i] == rows[..i];
      var left, right;
      left, r, bandKeys := Arg(r, bandKeys, rows[i].left, rows, i, bands);
      right, r, bandKeys := Arg(r, bandKeys, rows[i].right, rows, i, NoteBand(bands, rows[i].left));
      NoteBandKeeps(NoteBand(bands, rows[i].left), rows[i].right, rows[i].left);
      NoteRowReducer(rows, i, r, NoteRow(bands, rows[i]));
      r := With(r, RowKey(i), RowNode(rows[i].op, left, right, i == |rows| - 1));
    }
    assert rows[..|rows|] == rows;
  }

  lemma EmptyReducer(rows: seq<FormulaRow>)
    ensures var r := Record([], map[]);
            Reducer(rows, 0, r, BandsOf(rows[..0])) && Keyed(map[], BandsOf(rows[..0])) && Written(r) && EarlierRefs(r)
  {
  }

  lemma NoteBandKeeps(bands: seq<string>, noted: Operand, operand: Operand)
    requires operand.Band? ==> operand.band in bands
    ensures var bands' := NoteBand(bands, noted);
            (operand.Band? ==> operand.band in bands') && ArgOf(bands', operand) == ArgOf(bands, operand)
  {
    if noted.Band? { ArgStable(bands, [noted.band], operand); }
  }

  predicate Uses(row: FormulaRow, band: string) {
    row.left == Band(band) || row.right == Band(band)
  }

  ghost predicate UsedIn(rows: seq<FormulaRow>, band: string) {
    exists i :: 0 <= i < |rows| && Uses(rows[i], band)
  }

  lemma UsedInSnoc(rows: seq<FormulaRow>, row: FormulaRow, band: string)
    ensures UsedIn(rows + [row], band) <==> UsedIn(rows, band) || Uses(row, band)
  {
    hide Uses;
    var more := rows + [row];
    if UsedIn(rows, band) {
      var i :| 0 <= i < |rows| && Uses(rows[i], band);
      assert Uses(more[i], band);
    }
    if Uses(row, band) { assert Uses(more[|rows|], band); }
  }

  /** The noted bands are the bands the lines use, ... */
  lemma {:induction false} BandsUsed(rows: seq<FormulaRow>, band: string)
    ensures band in BandsOf(rows) <==> UsedIn(rows, band)
  {
    if rows != [] {
      hide UsedIn, Uses, NoteRow;
      var front, last := rows[..|rows| - 1], rows[|rows| - 1];
      assert rows == front + [last];
      BandsUsed(front, band);
      NoteRowUses(BandsOf(front), last, band);
      UsedInSnoc(front, last, band);
    }
  }

  lemma NoteRowUses(bands: seq<string>, row: FormulaRow, band: string)
    ensures band in NoteRow(bands, row) <==> band in bands || Uses(row, band)
  {
  }

  /** ... each once. */
  lemma {:induction false} BandsDistinct(rows: seq<FormulaRow>)
    ensures Distinct(BandsOf(rows))
  {
    if rows != [] {
      var front := rows[..|rows| - 1];
      BandsDistinct(front);
      NoteDistinct(BandsOf(front), rows[|rows| - 1].left);
      NoteDistinct(NoteBand(BandsOf(front), rows[|rows| - 1].left), rows[|rows| - 1].right);
    }
  }

  lemma NoteDistinct(bands: seq<string>, operand: Operand)
    requires Distinct(bands)
    ensures Distinct(NoteBand(bands, operand))
  {
  }

  function BandRead(operand: Operand): seq<string> {
    if operand.Band? then [operand.band] else []
  }

  /** Every band read, line after line, the left operand before the right. */
  function BandsRead(rows: seq<FormulaRow>): seq<string> {
    if rows == [] then []
    else
      var row := rows[|rows| - 1];
      BandsRead(rows[..|rows| - 1]) + BandRead(row.left) + BandRead(row.right)
  }

  /** `bands` are those of `read`, in the order they are first read. */
  ghost predicate FirstRead(bands: seq<string>, read: seq<string>) {
    (forall band :: band in bands <==> band in read) &&
    (forall k, l :: 0 <= k < l < |bands| ==> IndexOf(read, bands[k]) < IndexOf(read, bands[l]))
  }

  lemma IndexRead(read: seq<string>, x: string, band: string)
    requires band in read + [x]
    ensures IndexOf(read + [x], band) == if band in read then IndexOf(read, band) else |read|
  {
    hide IndexOf;
    if band in read { IndexStable(read, [x], band); } else { IndexFirst(read, band); }
  }

  lemma ReadOn(bands: seq<string>, read: seq<string>, x: string)
    requires FirstRead(bands, read)
    ensures forall k :: 0 <= k < |bands| ==> bands[k] in read && bands[k] in read + [x]
    ensures forall k :: 0 <= k < |bands| ==> IndexOf(read + [x], bands[k]) == IndexOf(read, bands[k]) < |read|
  {
    hide IndexOf;
    forall k | 0 <= k < |bands|
      ensures bands[k] in read && bands[k] in read + [x]
      ensures IndexOf(read + [x], bands[k]) == IndexOf(read, bands[k]) < |read|
    {
      assert bands[k] in bands;
      IndexRead(read, x, bands[k]);
    }
  }

  lemma NoteFirst(bands: seq<string>, read: seq<string>, operand: Operand)
    requires FirstRead(bands, read)
    ensures FirstRead(NoteBand(bands, operand), read + BandRead(operand))
  {
    hide IndexOf;
    if operand.Band? {
      var x := operand.band;
      ReadOn(bands, read, x);
      if x !in bands { IndexRead(read, x, x); }
    } else {
      assert read + [] == read;
    }
  }

  /** The bands are noted in the order they are first read. */
  lemma {:induction false} BandsInOrder(rows: seq<FormulaRow>)
    ensures FirstRead(BandsOf(rows), BandsRead(rows))
  {
    if rows != [] {
      hide FirstRead, NoteBand, BandRead;
      var front, row := rows[..|rows| - 1], rows[|rows| - 1];
      BandsInOrder(front);
      NoteFirst(BandsOf(front), BandsRead(front), row.left);
      NoteFirst(NoteBand(BandsOf(front), row.left), BandsRead(front) + BandRead(row.left), row.right);
    }
  }

  /** Exactly one node is the result: the last line's. */
  lemma OneResult(rows: seq<FormulaRow>, r: Record, key: string)
    requires rows != [] && Reducer(rows, |rows|, r, BandsOf(rows)) && key in r.nodes
    ensures IsResult(r.nodes[key]) <==> key == RowKey(|rows| - 1)
  {
    hide BandNode, RowNode, IsResult, RefsAmong, InertChildren, NodeInertChildren, RowKey, BandKey, ArgOf, BandsOf;
    var bands, last := BandsOf(rows), |rows| - 1;
    if j :| 0 <= j < |bands| && key == BandKey(j) {
      BandNodeRefs(bands[j], []);
      KeysDistinct(last, j);
    } else {
      var j :| 0 <= j < |rows| && key == RowKey(j);
      KeysDistinct(j, last);
      RowNodeRefs(rows[j].op, ArgOf(bands, rows[j].left), ArgOf(bands, rows[j].right), j == last, []);
    }
  }

  // ----- Meaning -----

  /** What bands, numbers and operations mean. */
  datatype Sem<!V> = Sem(band: string -> V, number: string -> V, op: (FormulaOp, V, V) -> V)

  /** The value of a line, read directly: the last line's is the formula's. */
  function LineValue<V>(sem: Sem<V>, rows: seq<FormulaRow>, i: nat): V
    requires i < |rows| && LinesAbove(rows)
    decreases i, 1
  {
    sem.op(rows[i].op, OperandValue(sem, rows, i, rows[i].left), OperandValue(sem, rows, i, rows[i].right))
  }

  function OperandValue<V>(sem: Sem<V>, rows: seq<FormulaRow>, i: nat, operand: Operand): V
    requires i < |rows| && LinesAbove(rows) && Above(operand, i)
    decreases i, 0
  {
    match operand
    case Band(band) => sem.band(band)
    case Number(text) => sem.number(text)
    case Line(k) => LineValue(sem, rows, k)
  }

  /** The band array a reducer is given. */
  const DATA := TObj(map["from_parameter" := TStr("data")])

  function BandTerm(band: string): Term {
    TObj(map["process_id" := TStr("array_element"), "arguments" := TObj(map["data" := DATA, "label" := TStr(band)])])
  }

  function OpTerm(op: FormulaOp, x: Term, y: Term): Term {
    TObj(map["process_id" := TStr(OpName(op)), "arguments" := TObj(map["x" := x, "y" := y])])
  }

  /** The reading of a formula as a term of openEO processes. */
  function Terms(): Sem<Term> {
    Sem(band => BandTerm(band), text => TNum(text), (op, x, y) => OpTerm(op, x, y))
  }

  lemma PairTerm(scope: Scope, n: nat, k: string, a: Json, l: string, b: Json)
    requires k != l
    ensures Resolve(scope, n, Obj(map[k := a, l := b]))
         == TObj(map[k := Resolve(scope, n, a), l := Resolve(scope, n, b)])
  {
    var fields := Resolve(scope, n, Obj(map[k := a, l := b])).fields;
    hide Resolve, NodeTerm;
    assert fields == map[k := Resolve(scope, n, a), l := Resolve(scope, n, b)];
  }

  /** The mark that a node is the result is no part of its term. */
  lemma NodePairTerm(scope: Scope, n: nat, k: string, a: Json, l: string, b: Json)
    requires k != l && k != "result" && l != "result"
    ensures NodeTerm(scope, n, Obj(map[k := a, l := b]))
         == TObj(map[k := Resolve(scope, n, a), l := Resolve(scope, n, b)])
  {
    assert NodeTerm(scope, n, Obj(map[k := a, l := b])).fields
        == map[k := Resolve(scope, n, a), l := Resolve(scope, n, b)];
  }

  lemma ResultPairTerm(scope: Scope, n: nat, k: string, a: Json, l: string, b: Json)
    requires k != l && k != "result" && l != "result"
    ensures NodeTerm(scope, n, Obj(map[k := a, l := b, "result" := Bool(true)]))
         == TObj(map[k := Resolve(scope, n, a), l := Resolve(scope, n, b)])
  {
    assert NodeTerm(scope, n, Obj(map[k := a, l := b, "result" := Bool(true)])).fields
        == map[k := Resolve(scope, n, a), l := Resolve(scope, n, b)];
  }

  lemma BandNodeTerm(scope: Scope, n: nat, band: string)
    ensures NodeTerm(scope, n, BandNode(band)) == BandTerm(band)
  {
    hide NodeTerm;
    var data := Obj(map["from_parameter" := Str("data")]);
    var args := Obj(map["data" := data, "label" := Str(band)]);
    assert Resolve(scope, n, data) == DATA by {
      assert Resolve(scope, n, data).fields == map["from_parameter" := TStr("data")];
    }
    PairTerm(scope, n, "data", data, "label", Str(band));
    NodePairTerm(scope, n, "process_id", Str("array_element"), "arguments", args);
  }

  lemma RowNodeTerm(scope: Scope, n: nat, op: FormulaOp, x: Json, y: Json, result: bool)
    ensures NodeTerm(scope, n, RowNode(op, x, y, result)) == OpTerm(op, Resolve(scope, n, x), Resolve(scope, n, y))
  {
    hide NodeTerm, OpName;
    var args := Obj(map["x" := x, "y" := y]);
    PairTerm(scope, n, "x", x, "y", y);
    NodePairTerm(scope, n, "process_id", Str(OpName(op)), "arguments", args);
    ResultPairTerm(scope, n, "process_id", Str(OpName(op)), "arguments", args);
  }

  /** Each line's node denotes what the line says. */
  lemma {:induction false} LineDenotes(rows: seq<FormulaRow>, r: Record, i: nat, n: nat)
    requires Reducer(rows, |rows|, r, BandsOf(rows)) && LinesAbove(rows) && i < |rows| && n > i
    ensures RowKey(i) in r.nodes && NodeTerm(r.nodes, n, r.nodes[RowKey(i)]) == LineValue(Terms(), rows, i)
    decreases i, 1
  {
    hide NodeTerm, Resolve, RowNode, OpTerm, BandsOf, ArgOf, RowKey, OnlyKeys, BandNodes;
    var bands, row := BandsOf(rows), rows[i];
    ArgDenotes(rows, r, i, n, row.left);
    ArgDenotes(rows, r, i, n, row.right);
    RowNodeTerm(r.nodes, n, row.op, ArgOf(bands, row.left), ArgOf(bands, row.right), i == |rows| - 1);
    assert r.nodes[RowKey(i)] == LineNode(rows, bands, i);
  }

  lemma {:induction false} ArgDenotes(rows: seq<FormulaRow>, r: Record, i: nat, n: nat, operand: Operand)
    requires Reducer(rows, |rows|, r, BandsOf(rows)) && LinesAbove(rows) && i < |rows| && n > i
    requires Above(operand, i) && (operand.Band? ==> operand.band in BandsOf(rows))
    ensures Resolve(r.nodes, n, ArgOf(BandsOf(rows), operand)) == OperandValue(Terms(), rows, i, operand)
    decreases i, 0
  {
    hide NodeTerm, RowNode, BandNode, OpTerm, BandsOf, LinesAbove, OnlyKeys, LineNodes, BandKey, LineValue;
    match operand
    case Band(band) =>
      var j := IndexOf(BandsOf(rows), band);
      assert r.nodes[BandKey(j)] == BandNode(band);
      BandNodeTerm(r.nodes, n - 1, band);
    case Number(_) =>
    case Line(k) =>
      LineDenotes(rows, r, k, n - 1);
  }

  /** The child graph denotes the function that computes the last line. */
  lemma ReducerDenotes(rows: seq<FormulaRow>, r: Record, rest: map<string, Json>, scope: Scope, n: nat)
    requires rows != [] && Reducer(rows, |rows|, r, BandsOf(rows)) && LinesAbove(rows) && n >= |rows|
    ensures Resolve(scope, n, Child(r.nodes, rest)) == TFun({LineValue(Terms(), rows, |rows| - 1)})
  {
    hide Reducer, LinesAbove, LineValue, IsResult, NodeTerm, BandsOf, RowKey;
    var last := |rows| - 1;
    LineDenotes(rows, r, last, n);
    forall key | key in r.nodes
      ensures IsResult(r.nodes[key]) <==> key == RowKey(last)
    {
      OneResult(rows, r, key);
    }
    var results := Resolve(scope, n, Child(r.nodes, rest)).results;
    var t := NodeTerm(r.nodes, n, r.nodes[RowKey(last)]);
    assert t in results;
    assert results == {t};
  }

  /** The nodes hold no child graphs, so lowering may prefix them: the prefixed child
      still computes the last line. */
  lemma PrefixedReducerDenotes(rows: seq<FormulaRow>, r: Record, owner: string, out: Scope, scope: Scope, n: nat)
    requires rows != [] && Reducer(rows, |rows|, r, BandsOf(rows)) && LinesAbove(rows) && n >= |rows|
    requires IsPrefixed(owner, r.nodes, out)
    ensures Resolve(scope, n, Child(out, map[])) == TFun({LineValue(Terms(), rows, |rows| - 1)})
  {
    hide *;
    ReducerPrefixable(rows, r);
    ReducerDenotes(rows, r, map[], scope, n);
    PrefixedChildTerm(owner, r.nodes, map[], out, scope, scope, n);
  }

  /** Followed as deep as it has lines, the compiled graph leaves no reference unfollowed. */
  lemma ReducerWhole(rows: seq<FormulaRow>, r: Record, rest: map<string, Json>, scope: Scope, n: nat)
    requires rows != [] && Reducer(rows, |rows|, r, BandsOf(rows)) && LinesAbove(rows) && n >= |rows|
    ensures Whole(Resolve(scope, n, Child(r.nodes, rest)))
  {
    hide Reducer, LinesAbove, LineValue, BandsOf, Resolve;
    ReducerDenotes(rows, r, rest, scope, n);
    LineWhole(rows, |rows| - 1);
  }

  lemma {:induction false} LineWhole(rows: seq<FormulaRow>, i: nat)
    requires i < |rows| && LinesAbove(rows)
    ensures Whole(LineValue(Terms(), rows, i))
    decreases i, 1
  {
    hide OpTerm, Whole;
    OperandWhole(rows, i, rows[i].left);
    OperandWhole(rows, i, rows[i].right);
    OpWhole(rows[i].op, OperandValue(Terms(), rows, i, rows[i].left), OperandValue(Terms(), rows, i, rows[i].right));
  }

  lemma {:induction false} OperandWhole(rows: seq<FormulaRow>, i: nat, operand: Operand)
    requires i < |rows| && LinesAbove(rows) && Above(operand, i)
    ensures Whole(OperandValue(Terms(), rows, i, operand))
    decreases i, 0
  {
    hide BandTerm, LinesAbove, LineValue;
    match operand
    case Band(band) => BandWhole(band);
    case Number(_) =>
    case Line(k) => LineWhole(rows, k);
  }

  lemma BandWhole(band: string)
    ensures Whole(BandTerm(band))
  {
    assert Whole(DATA);
    var args := TObj(map["data" := DATA, "label" := TStr(band)]);
    assert Whole(args);
  }

  lemma OpWhole(op: FormulaOp, x: Term, y: Term)
    requires Whole(x) && Whole(y)
    ensures Whole(OpTerm(op, x, y))
  {
    hide OpName;
    var args := TObj(map["x" := x, "y" := y]);
    assert Whole(args);
  }

  lemma ReducerPrefixable(rows: seq<FormulaRow>, r: Record)
    requires Reducer(rows, |rows|, r, BandsOf(rows))
    ensures Prefixable(r.nodes)
  {
    hide BandNode, RowNode, IsResult, RefsAmong, InertChildren, NodeInertChildren, RowKey, BandKey, ArgOf, BandsOf;
    var bands := BandsOf(rows);
    forall key | key in r.nodes
      ensures NodeInertChildren(r.nodes[key])
    {
      if j :| 0 <= j < |bands| && key == BandKey(j) {
        BandNodeRefs(bands[j], []);
      } else {
        var j :| 0 <= j < |rows| && key == RowKey(j);
        ArgInert(bands, rows[j].left);
        ArgInert(bands, rows[j].right);
        RowNodeRefs(rows[j].op, ArgOf(bands, rows[j].left), ArgOf(bands, rows[j].right), j == |rows| - 1, []);
      }
    }
  }

  lemma ArgInert(bands: seq<string>, operand: Operand)
    requires operand.Band? ==> operand.band in bands
    ensures InertChildren(ArgOf(bands, operand))
  {
  }

  // ----- Running a term -----

  function OpNamed(name: string): Option<FormulaOp> {
    if name == "add" then Some(Add)
    else if name == "subtract" then Some(Subtract)
    else if name == "multiply" then Some(Multiply)
    else if name == "divide" then Some(Divide)
    else None
  }

  /** The value of a term of `array_element` and arithmetic nodes; no other term has one. */
  function TermValue<V>(sem: Sem<V>, t: Term): Option<V>
    decreases t
  {
    match t
    case TNum(text) => Some(sem.number(text))
    case TObj(fields) =>
      if "process_id" in fields && fields["process_id"].TStr? && "arguments" in fields then
        ProcessValue(sem, fields["process_id"].s, fields["arguments"])
      else None
    case _ => None
  }

  function ProcessValue<V>(sem: Sem<V>, process: string, args: Term): Option<V>
    decreases args
  {
    match args
    case TObj(fields) =>
      if process == "array_element" then
        if "data" in fields && fields["data"] == DATA && "label" in fields && fields["label"].TStr? then
          Some(sem.band(fields["label"].s))
        else None
      else if OpNamed(process).Some? && "x" in fields && "y" in fields then
        var x, y := TermValue(sem, fields["x"]), TermValue(sem, fields["y"]);
        if x.Some? && y.Some? then Some(sem.op(OpNamed(process).value, x.value, y.value)) else None
      else None
    case _ => None
  }

  lemma BandTermValue<V>(sem: Sem<V>, band: string)
    ensures TermValue(sem, BandTerm(band)) == Some(sem.band(band))
  {
    var args := TObj(map["data" := DATA, "label" := TStr(band)]);
    assert args.fields["data"] == DATA && args.fields["label"] == TStr(band);
    assert BandTerm(band).fields["process_id"] == TStr("array_element") && BandTerm(band).fields["arguments"] == args;
  }

  lemma OpTermValue<V>(sem: Sem<V>, op: FormulaOp, x: Term, y: Term)
    requires TermValue(sem, x).Some? && TermValue(sem, y).Some?
    ensures TermValue(sem, OpTerm(op, x, y)) == Some(sem.op(op, TermValue(sem, x).value, TermValue(sem, y).value))
  {
    hide OpName, OpNamed;
    var args := TObj(map["x" := x, "y" := y]);
    OpNames(op);
    assert args.fields["x"] == x && args.fields["y"] == y;
    assert ProcessValue(sem, OpName(op), args) == Some(sem.op(op, TermValue(sem, x).value, TermValue(sem, y).value));
    assert OpTerm(op, x, y).fields["process_id"] == TStr(OpName(op)) && OpTerm(op, x, y).fields["arguments"] == args;
  }

  lemma OpNames(op: FormulaOp)
    ensures OpNamed(OpName(op)) == Some(op) && OpName(op) != "array_element"
  {
  }

  /** Running the term of a line gives the line's value. */
  lemma {:induction false} LineTermValue<V>(sem: Sem<V>, rows: seq<FormulaRow>, i: nat)
    requires i < |rows| && LinesAbove(rows)
    ensures TermValue(sem, LineValue(Terms(), rows, i)) == Some(LineValue(sem, rows, i))
    decreases i, 1
  {
    hide TermValue, OpTerm;
    var row := rows[i];
    OperandTermValue(sem, rows, i, row.left);
    OperandTermValue(sem, rows, i, row.right);
    OpTermValue(sem, row.op, OperandValue(Terms(), rows, i, row.left), OperandValue(Terms(), rows, i, row.right));
  }

  lemma {:induction false} OperandTermValue<V>(sem: Sem<V>, rows: seq<FormulaRow>, i: nat, operand: Operand)
    requires i < |rows| && LinesAbove(rows) && Above(operand, i)
    ensures TermValue(sem, OperandValue(Terms(), rows, i, operand)) == Some(OperandValue(sem, rows, i, operand))
    decreases i, 0
  {
    hide BandTerm, LinesAbove, LineValue;
    match operand
    case Band(band) => BandTermValue(sem, band);
    case Number(_) =>
    case Line(k) => LineTermValue(sem, rows, k);
  }

  /** Evaluating the graph a formula without issues compiles to gives the value of its
      last line, whatever bands, numbers and operations mean. */
  lemma CompiledFormulaComputes<V>(sem: Sem<V>, rows: seq<FormulaRow>, bands: seq<string>, numeric: Reader,
                                   r: Record, scope: Scope)
    requires rows != [] && RowIssues(rows, bands, numeric) == []
    requires Reducer(rows, |rows|, r, BandsOf(rows))
    ensures LinesAbove(rows)
    ensures exists t :: Resolve(scope, |rows|, Child(r.nodes, map[])) == TFun({t})
                     && TermValue(sem, t) == Some(LineValue(sem, rows, |rows| - 1))
  {
    hide Reducer, RowIssues, LineValue, TermValue, Resolve, BandsOf;
    IssueFree(rows, bands, numeric);
    var t := LineValue(Terms(), rows, |rows| - 1);
    ReducerDenotes(rows, r, map[], scope, |rows|);
    LineTermValue(sem, rows, |rows| - 1);
    assert Resolve(scope, |rows|, Child(r.nodes, map[])) == TFun({t});
  }
}
