/** The lines of a formula under edit: the handlers of web/src/swath-authoring-panel.ts
    that add, remove and change them. */
module FormulaEdits {
  import opened Formula

  // ----- Removing a line -----

  /** A reference once line `k` is gone: to it, reset; past it, one less. */
  function Renumbered(operand: Operand, k: int): Operand {
    if operand.Line? && operand.index >= k then
      if operand.index > k then Line(operand.index - 1) else EMPTY_OPERAND
    else operand
  }

  function RenumberedRow(row: FormulaRow, k: int): FormulaRow {
    FormulaRow(row.op, Renumbered(row.left, k), Renumbered(row.right, k))
  }

  /** Where a line other than `k` stood before line `k` was removed. */
  function Before(i: nat, k: nat): nat {
    if i < k then i else i + 1
  }

  /** The lines without line `k`. */
  function Removed(rows: seq<FormulaRow>, k: nat): (left: seq<FormulaRow>)
    requires k < |rows|
    ensures |left| == |rows| - 1
    ensures forall i :: 0 <= i < |left| ==> left[i] == RenumberedRow(rows[Before(i, k)], k)
  {
    seq(|rows| - 1, i requires 0 <= i < |rows| - 1 => RenumberedRow(rows[Before(i, k)], k))
  }

  /** Whether line `i` uses line `k`, directly or through other lines. */
  predicate DependsOn(rows: seq<FormulaRow>, i: nat, k: nat)
    requires i < |rows| && LinesAbove(rows)
    decreases i, 1
  {
    OperandDepends(rows, i, rows[i].left, k) || OperandDepends(rows, i, rows[i].right, k)
  }

  predicate OperandDepends(rows: seq<FormulaRow>, i: nat, operand: Operand, k: nat)
    requires i < |rows| && LinesAbove(rows) && Above(operand, i)
    decreases i, 0
  {
    operand.Line? && (operand.index == k || DependsOn(rows, operand.index, k))
  }

  lemma RemoveKeepsAbove(rows: seq<FormulaRow>, k: nat)
    requires k < |rows| && LinesAbove(rows)
    ensures LinesAbove(Removed(rows, k))
  {
    var left := Removed(rows, k);
    forall i | 0 <= i < |left|
      ensures Above(left[i].left, i) && Above(left[i].right, i)
    {
      assert Above(rows[Before(i, k)].left, Before(i, k)) && Above(rows[Before(i, k)].right, Before(i, k));
    }
  }

  /** A line that does not depend on the removed one keeps its value, wherever it now
      stands. */
  lemma {:induction false} RemoveKeepsValue<V>(sem: Sem<V>, rows: seq<FormulaRow>, k: nat, i: nat)
    requires k < |rows| && i < |rows| - 1 && LinesAbove(rows) && !DependsOn(rows, Before(i, k), k)
    ensures LinesAbove(Removed(rows, k))
    ensures LineValue(sem, Removed(rows, k), i) == LineValue(sem, rows, Before(i, k))
    decreases i, 1
  {
    RemoveKeepsAbove(rows, k);
    RemoveKeepsOperand(sem, rows, k, i, rows[Before(i, k)].left);
    RemoveKeepsOperand(sem, rows, k, i, rows[Before(i, k)].right);
  }

  lemma {:induction false} RemoveKeepsOperand<V>(sem: Sem<V>, rows: seq<FormulaRow>, k: nat, i: nat, operand: Operand)
    requires k < |rows| && i < |rows| - 1 && LinesAbove(rows) && LinesAbove(Removed(rows, k))
    requires Above(operand, Before(i, k)) && !OperandDepends(rows, Before(i, k), operand, k)
    ensures Above(Renumbered(operand, k), i)
    ensures OperandValue(sem, Removed(rows, k), i, Renumbered(operand, k))
         == OperandValue(sem, rows, Before(i, k), operand)
    decreases i, 0
  {
    if operand.Line? {
      RemoveKeepsValue(sem, rows, k, if operand.index < k then operand.index else operand.index - 1);
    }
  }

  /** The line uses line `k` directly. */
  predicate UsesLine(row: FormulaRow, k: nat) {
    row.left == Line(k) || row.right == Line(k)
  }

  /** A formula without issues stays without once a line is removed exactly when another line
      is left and no other line used it directly: one that did is asked to pick a value
      again. */
  lemma RemoveStaysComplete(rows: seq<FormulaRow>, k: nat, bands: seq<string>, numeric: Reader)
    requires k < |rows| && Complete(rows, bands, numeric)
    ensures Complete(Removed(rows, k), bands, numeric) <==>
      |rows| > 1 && forall i :: 0 <= i < |rows| && i != k ==> !UsesLine(rows[i], k)
  {
    var left := Removed(rows, k);
    forall i | 0 <= i < |left|
      ensures var row := rows[Before(i, k)];
              OperandOk(left[i].left, i, bands, numeric) && OperandOk(left[i].right, i, bands, numeric)
              <==> !UsesLine(row, k)
    {
      assert OperandOk(rows[Before(i, k)].left, Before(i, k), bands, numeric);
      assert OperandOk(rows[Before(i, k)].right, Before(i, k), bands, numeric);
    }
    if forall i :: 0 <= i < |rows| && i != k ==> !UsesLine(rows[i], k) {
      assert forall i :: 0 <= i < |left| ==> !UsesLine(rows[Before(i, k)], k);
    } else {
      var i :| 0 <= i < |rows| && i != k && UsesLine(rows[i], k);
      var at := if i < k then i else i - 1;
      assert Before(at, k) == i;
      assert !(OperandOk(left[at].left, at, bands, numeric) && OperandOk(left[at].right, at, bands, numeric));
    }
  }

  // ----- Every run of edits -----

  datatype Edit =
    | AddLine
    | RemoveLine(index: nat)
    | SetOperand(index: nat, side: Side, operand: Operand)
    | SetOp(index: nat, op: FormulaOp)

  /** What the controls offer: existing lines, and for an operand the lines above. */
  predicate Offered(rows: seq<FormulaRow>, edit: Edit) {
    match edit
    case AddLine => true
    case RemoveLine(index) => index < |rows|
    case SetOperand(index, _, operand) => index < |rows| && Above(operand, index)
    case SetOp(index, _) => index < |rows|
  }

  /** A new line divides the line before it, by a value to be picked. */
  function NewLine(rows: seq<FormulaRow>): FormulaRow {
    FormulaRow(Divide, if rows == [] then EMPTY_OPERAND else Line(|rows| - 1), EMPTY_OPERAND)
  }

  function Edited(rows: seq<FormulaRow>, edit: Edit): seq<FormulaRow>
    requires Offered(rows, edit)
  {
    match edit
    case AddLine => rows + [NewLine(rows)]
    case RemoveLine(index) => Removed(rows, index)
    case SetOperand(index, Left, operand) => rows[index := rows[index].(left := operand)]
    case SetOperand(index, Right, operand) => rows[index := rows[index].(right := operand)]
    case SetOp(index, op) => rows[index := rows[index].(op := op)]
  }

  const FIRST_LINE := FormulaRow(Subtract, EMPTY_OPERAND, EMPTY_OPERAND)

  lemma EditKeepsAbove(rows: seq<FormulaRow>, edit: Edit)
    requires LinesAbove(rows) && Offered(rows, edit)
    ensures LinesAbove(Edited(rows, edit))
  {
    match edit
    case RemoveLine(index) => RemoveKeepsAbove(rows, index);
    case _ =>
  }

  predicate Playable(rows: seq<FormulaRow>, edits: seq<Edit>)
    decreases edits
  {
    edits == [] || (Offered(rows, edits[0]) && Playable(Edited(rows, edits[0]), edits[1..]))
  }

  function Played(rows: seq<FormulaRow>, edits: seq<Edit>): seq<FormulaRow>
    requires Playable(rows, edits)
    decreases edits
  {
    if edits == [] then rows else Played(Edited(rows, edits[0]), edits[1..])
  }

  /** After every run of edits each line refers to lines above only, ... */
  lemma {:induction false} EveryRunAbove(rows: seq<FormulaRow>, edits: seq<Edit>)
    requires LinesAbove(rows) && Playable(rows, edits)
    ensures LinesAbove(Played(rows, edits))
    decreases edits
  {
    if edits != [] {
      EditKeepsAbove(rows, edits[0]);
      EveryRunAbove(Edited(rows, edits[0]), edits[1..]);
    }
  }

  /** ... so a formula begun as the panel begins it is never told that a line may only use
      lines above. */
  lemma NeverOnlyLinesAbove(edits: seq<Edit>, bands: seq<string>, numeric: Reader, issue: Issue)
    requires Playable([FIRST_LINE], edits) && issue in RowIssues(Played([FIRST_LINE], edits), bands, numeric)
    ensures !issue.OnlyLinesAbove?
  {
    EveryRunAbove([FIRST_LINE], edits);
    AboveNoIssue(Played([FIRST_LINE], edits), bands, numeric, issue);
  }

  lemma {:induction false} AboveNoIssue(rows: seq<FormulaRow>, bands: seq<string>, numeric: Reader, issue: Issue)
    requires LinesAbove(rows) && issue in RowIssues(rows, bands, numeric)
    ensures !issue.OnlyLinesAbove?
  {
    var i := |rows| - 1;
    assert Above(rows[i].left, i) && Above(rows[i].right, i);
    if issue in RowIssues(rows[..i], bands, numeric) {
      AboveNoIssue(rows[..i], bands, numeric, issue);
    }
  }

  /** Changing a line changes the value of no line but itself and those that depend on it. */
  lemma {:induction false} ChangeKeepsValue<V>(sem: Sem<V>, rows: seq<FormulaRow>, k: nat, row: FormulaRow, i: nat)
    requires k < |rows| && i < |rows| && i != k && LinesAbove(rows) && LinesAbove(rows[k := row])
    requires !DependsOn(rows, i, k)
    ensures LineValue(sem, rows[k := row], i) == LineValue(sem, rows, i)
    decreases i, 1
  {
    ChangeKeepsOperand(sem, rows, k, row, i, rows[i].left);
    ChangeKeepsOperand(sem, rows, k, row, i, rows[i].right);
  }

  lemma {:induction false} ChangeKeepsOperand<V>(sem: Sem<V>, rows: seq<FormulaRow>, k: nat, row: FormulaRow, i: nat,
                                                 operand: Operand)
    requires k < |rows| && i < |rows| && i != k && LinesAbove(rows) && LinesAbove(rows[k := row])
    requires Above(operand, i) && !OperandDepends(rows, i, operand, k)
    ensures OperandValue(sem, rows[k := row], i, operand) == OperandValue(sem, rows, i, operand)
    decreases i, 0
  {
    if operand.Line? { ChangeKeepsValue(sem, rows, k, row, operand.index); }
  }

  /** A new line divides the last one's value by a blank, and changes no line's value. */
  lemma {:induction false} AddKeepsValue<V>(sem: Sem<V>, rows: seq<FormulaRow>, i: nat)
    requires rows != [] && LinesAbove(rows) && i <= |rows|
    ensures var more := Edited(rows, Edit.AddLine);
            LinesAbove(more) && |more| == |rows| + 1 &&
            LineValue(sem, more, i) ==
              if i < |rows| then LineValue(sem, rows, i)
              else sem.op(Divide, LineValue(sem, rows, |rows| - 1), OperandValue(sem, rows, 0, EMPTY_OPERAND))
    decreases i, 1
  {
    EditKeepsAbove(rows, Edit.AddLine);
    if i < |rows| {
      AddKeepsOperand(sem, rows, i, rows[i].left);
      AddKeepsOperand(sem, rows, i, rows[i].right);
    } else {
      AddKeepsValue(sem, rows, |rows| - 1);
    }
  }

  lemma {:induction false} AddKeepsOperand<V>(sem: Sem<V>, rows: seq<FormulaRow>, i: nat, operand: Operand)
    requires LinesAbove(rows) && LinesAbove(Edited(rows, Edit.AddLine)) && i < |rows| && Above(operand, i)
    ensures OperandValue(sem, Edited(rows, Edit.AddLine), i, operand) == OperandValue(sem, rows, i, operand)
    decreases i, 0
  {
    if operand.Line? { AddKeepsValue(sem, rows, operand.index); }
  }

  /** The card of a formula step. */
  class Card {
    var rows: seq<FormulaRow>

    /** A new formula starts with one line to fill in. */
    constructor ()
      ensures rows == [FormulaRow(Subtract, Band(""), Band(""))] && LinesAbove(rows)
    {
      rows := [FIRST_LINE];
    }

    method AddLine()
      requires LinesAbove(rows)
      modifies this
      ensures rows == Edited(old(rows), Edit.AddLine) && LinesAbove(rows)
      ensures |rows| == |old(rows)| + 1 && rows[..|old(rows)|] == old(rows)
      ensures rows[|old(rows)|] ==
        FormulaRow(Divide, if old(rows) == [] then Band("") else Line(|old(rows)| - 1), Band(""))
    {
      EditKeepsAbove(rows, Edit.AddLine);
      var left := if |rows| > 0 then Line(|rows| - 1) else EMPTY_OPERAND;
      rows := rows + [FormulaRow(Divide, left, EMPTY_OPERAND)];
    }

    /** Takes the line out, then renumbers operand by operand. */
    method RemoveLine(index: nat)
      requires LinesAbove(rows) && index < |rows|
      modifies this
      ensures rows == Edited(old(rows), Edit.RemoveLine(index)) && LinesAbove(rows)
    {
      RemoveKeepsAbove(rows, index);
      rows := rows[..index] + rows[index + 1..];
      for i := 0 to |rows|
        invariant |rows| == |old(rows)| - 1
        invariant forall j :: 0 <= j < i ==> rows[j] == RenumberedRow(old(rows)[Before(j, index)], index)
        invariant forall j :: i <= j < |rows| ==> rows[j] == old(rows)[Before(j, index)]
      {
        var row := rows[i];
        if row.left.Line? && row.left.index >= index {
          row := row.(left := if row.left.index > index then Line(row.left.index - 1) else EMPTY_OPERAND);
        }
        if row.right.Line? && row.right.index >= index {
          row := row.(right := if row.right.index > index then Line(row.right.index - 1) else EMPTY_OPERAND);
        }
        rows := rows[i := row];
      }
      assert rows == Removed(old(rows), index);
    }

    method SetOperand(index: nat, side: Side, operand: Operand)
      requires LinesAbove(rows) && index < |rows| && Above(operand, index)
      modifies this
      ensures rows == Edited(old(rows), Edit.SetOperand(index, side, operand)) && LinesAbove(rows)
      ensures |rows| == |old(rows)| && forall i :: 0 <= i < |rows| && i != index ==> rows[i] == old(rows)[i]
      ensures rows[index].op == old(rows)[index].op && SideOf(rows[index], side) == operand
      ensures rows[index].left == if side == Left then operand else old(rows)[index].left
      ensures rows[index].right == if side == Right then operand else old(rows)[index].right
    {
      EditKeepsAbove(rows, Edit.SetOperand(index, side, operand));
      match side
      case Left => rows := rows[index := rows[index].(left := operand)];
      case Right => rows := rows[index := rows[index].(right := operand)];
    }

    method SetOp(index: nat, op: FormulaOp)
      requires LinesAbove(rows) && index < |rows|
      modifies this
      ensures rows == Edited(old(rows), Edit.SetOp(index, op)) && LinesAbove(rows)
      ensures |rows| == |old(rows)| && forall i :: 0 <= i < |rows| && i != index ==> rows[i] == old(rows)[i]
      ensures rows[index] == FormulaRow(op, old(rows)[index].left, old(rows)[index].right)
    {
      EditKeepsAbove(rows, Edit.SetOp(index, op));
      rows := rows[index := rows[index].(op := op)];
    }
  }
}
