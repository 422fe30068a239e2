/**
 * Row selection in the data table: clicking, shift-clicking and ctrl-clicking
 * cells selects rows, and the header checkbox selects or clears all rows. The
 * grid's `CompactSelection` of rows is a set of row indices; its ranges are
 * half-open, `[start, end)`.
 */
module RowSelection {
  import opened Wrappers

  /** The grid's selection: the selected rows, and the selected columns it carries along. */
  datatype GridSelection = GridSelection(rows: set<nat>, columns: set<nat>)

  /** A grid cell, `[col, row]`; the row-marker column is column -1. */
  datatype Item = Item(col: int, row: nat)

  /** `CompactSelection.add([lo, hi])` / `remove([lo, hi])` treat the pair as `lo <= i < hi`. */
  function Range(lo: nat, hi: nat): (r: set<nat>)
    ensures forall i: nat :: i in r <==> lo <= i < hi
    decreases hi - lo
  {
    if lo >= hi then {} else {lo} + Range(lo + 1, hi)
  }

  lemma {:induction false} MaxExists(s: set<nat>)
    requires s != {}
    ensures exists m :: m in s && forall x :: x in s ==> x <= m
    decreases |s|
  {
    var y :| y in s;
    var rest := s - {y};
    if s == {y} {
      assert forall x :: x in s ==> x <= y;
    } else {
      assert rest != {} by {
        var z :| z in s && z != y;
        assert z in rest;
      }
      MaxExists(rest);
      var m0 :| m0 in rest && forall x :: x in rest ==> x <= m0;
      var m := if y > m0 then y else m0;
      forall x | x in s
        ensures x <= m
      {
        if x != y {
          assert x in rest;
        }
      }
      assert m in s;
    }
  }

  lemma {:induction false} MinExists(s: set<nat>)
    requires s != {}
    ensures exists m :: m in s && forall x :: x in s ==> m <= x
  {
    var y :| y in s;
    MinAtMost(s, y);
  }

  lemma {:induction false} MinAtMost(s: set<nat>, y: nat)
    requires y in s
    ensures exists m :: m in s && forall x :: x in s ==> m <= x
    decreases y
  {
    if exists z :: z in s && z < y {
      var z :| z in s && z < y;
      MinAtMost(s, z);
    } else {
      assert forall x :: x in s ==> y <= x;
    }
  }

  function Max(s: set<nat>): (m: nat)
    requires s != {}
    ensures m in s && forall x :: x in s ==> x <= m
  {
    MaxExists(s);
    var m :| m in s && forall x :: x in s ==> x <= m;
    m
  }

  function Min(s: set<nat>): (m: nat)
    requires s != {}
    ensures m in s && forall x :: x in s ==> m <= x
  {
    MinExists(s);
    var m :| m in s && forall x :: x in s ==> m <= x;
    m
  }

  /** `rows.first()`: the lowest selected row, `undefined` when none is selected. */
  function First(s: set<nat>): (r: Option<nat>)
    ensures r.None? <==> s == {}
    ensures r.Some? ==> r.value in s && forall x :: x in s ==> r.value <= x
  {
    if s == {} then None else Some(Min(s))
  }

  /** `rows.last()`: the highest selected row, `undefined` when none is selected. */
  function Last(s: set<nat>): (r: Option<nat>)
    ensures r.None? <==> s == {}
    ensures r.Some? ==> r.value in s && forall x :: x in s ==> x <= r.value
  {
    if s == {} then None else Some(Max(s))
  }

  /** `rows.toArray()`: the selected rows in ascending order, each once. */
  function ToArray(s: set<nat>): (r: seq<nat>)
    ensures forall i, j :: 0 <= i < j < |r| ==> r[i] < r[j]
    ensures forall x :: x in s <==> x in r
    ensures |r| == |s|
    decreases |s|
  {
    if s == {} then []
    else
      var m := Max(s);
      ToArray(s - {m}) + [m]
  }

  /** `rows.map(row => data[row])`: an index past the end reads `undefined`. */
  function Records<T>(data: seq<T>, rows: seq<nat>): (r: seq<Option<T>>)
    ensures |r| == |rows|
    ensures forall i :: 0 <= i < |rows| ==> r[i] == At(data, rows[i])
  {
    if |rows| == 0 then [] else [At(data, rows[0])] + Records(data, rows[1..])
  }

  /**
   * The rows a click on `cell` touches: the clicked row, or on a shift-click the
   * range from the previous click's row, `[min(prev, row), max(prev, row + 1))`.
   */
  function Touched(prevRow: nat, cell: Item, isShift: bool): set<nat>
  {
    if isShift then
      Range(if prevRow < cell.row then prevRow else cell.row,
            if prevRow > cell.row + 1 then prevRow else cell.row + 1)
    else {cell.row}
  }

  /**
   * The rows selected after a click: a click on a selected row deselects what it
   * touches; a plain click on a data cell selects that row alone; any other click
   * adds what it touches to the selection.
   */
  function NextRows(rows: set<nat>, prevRow: nat, cell: Item, isShift: bool, ctrl: bool): set<nat>
  {
    var target := Touched(prevRow, cell, isShift);
    if cell.row in rows then rows - target
    else if !isShift && !ctrl && cell.col != -1 then {cell.row}
    else rows + target
  }

  /** Every click touches its own row. */
  lemma TouchedHasRow(prevRow: nat, cell: Item, isShift: bool)
    ensures cell.row in Touched(prevRow, cell, isShift)
  {
  }

  /** Clicking a selected row deselects it and what the click touches, and nothing else. */
  lemma ClickSelectedDeselects(rows: set<nat>, prevRow: nat, cell: Item, isShift: bool, ctrl: bool)
    requires cell.row in rows
    ensures var next := NextRows(rows, prevRow, cell, isShift, ctrl);
      cell.row !in next && next <= rows
      && forall x :: x in rows && x !in Touched(prevRow, cell, isShift) ==> x in next
  {
    TouchedHasRow(prevRow, cell, isShift);
  }

  /** A plain click on an unselected data cell selects its row and only that row. */
  lemma PlainClickSelectsOne(rows: set<nat>, prevRow: nat, cell: Item, ctrl: bool)
    requires cell.row !in rows && !ctrl && cell.col != -1
    ensures NextRows(rows, prevRow, cell, false, ctrl) == {cell.row}
  {
  }

  /** Ctrl-clicking, or clicking the row marker, on an unselected row adds it to the selection. */
  lemma CtrlClickAdds(rows: set<nat>, prevRow: nat, cell: Item, ctrl: bool)
    requires cell.row !in rows && (ctrl || cell.col == -1)
    ensures NextRows(rows, prevRow, cell, false, ctrl) == rows + {cell.row}
  {
  }

  /**
   * Shift-clicking an unselected row at or below the previous one adds every row
   * from the previous one to it, both ends included; above the previous one, the
   * range stops short of the previous row.
   */
  lemma ShiftClickRange(rows: set<nat>, prevRow: nat, cell: Item, ctrl: bool)
    requires cell.row !in rows
    ensures var next := NextRows(rows, prevRow, cell, true, ctrl);
      rows <= next && cell.row in next
      && (prevRow <= cell.row ==> forall i: nat :: prevRow <= i <= cell.row ==> i in next)
      && (cell.row < prevRow ==> (forall i: nat :: cell.row <= i < prevRow ==> i in next)
                                 && (prevRow in next <==> prevRow in rows))
  {
  }

  /** What the header's select-all handler does with a new selection. */
  datatype SelectAllStep =
    | Swallow   // the first report after a cell click on a one-row table is ignored
    | SelectAll // the new selection spans the first row to the last
    | ClearAll  // a selection that spanned the table was cleared
    | Ignore    // anything else

  function SelectAllDecision(dataLength: nat, oldRows: set<nat>, newRows: set<nat>, wasSelectionFromCell: bool)
    : SelectAllStep
  {
    var first := First(newRows);
    var last := Last(newRows);
    if dataLength == 1 && wasSelectionFromCell then Swallow
    else if first == Some(0) && last.Some? && last.value == dataLength - 1 then SelectAll
    else if First(oldRows) == Some(0) && Last(oldRows).Some? && Last(oldRows).value == dataLength - 1
            && first.None? && last.None? then ClearAll
    else Ignore
  }

  /**
   * A new selection counts as "all rows" exactly when its lowest row is 0 and its
   * highest is the last row: only the two ends are looked at, so on a table of
   * three or more rows the selection of the first and last rows alone counts too.
   */
  lemma SelectAllByEndpoints(dataLength: nat, oldRows: set<nat>, newRows: set<nat>, was: bool)
    requires !(dataLength == 1 && was)
    ensures SelectAllDecision(dataLength, oldRows, newRows, was) == SelectAll
            <==> (0 in newRows && dataLength >= 1 && dataLength - 1 in newRows
                  && forall x :: x in newRows ==> x < dataLength)
  {
    if 0 in newRows && dataLength >= 1 && dataLength - 1 in newRows && forall x :: x in newRows ==> x < dataLength {
      assert Last(newRows).value == dataLength - 1;
    }
  }

  lemma EndpointsCountAsAll(dataLength: nat, oldRows: set<nat>, was: bool)
    requires dataLength >= 3
    ensures SelectAllDecision(dataLength, oldRows, {0, dataLength - 1}, was) == SelectAll
  {
    SelectAllByEndpoints(dataLength, oldRows, {0, dataLength - 1}, was);
  }

  /** Clearing is reported only when the old selection spanned the table and the new one is empty. */
  lemma ClearAllWhen(dataLength: nat, oldRows: set<nat>, newRows: set<nat>, was: bool)
    ensures SelectAllDecision(dataLength, oldRows, newRows, was) == ClearAll
            <==> (!(dataLength == 1 && was) && newRows == {} && 0 in oldRows
                  && dataLength >= 1 && dataLength - 1 in oldRows
                  && forall x :: x in oldRows ==> x < dataLength)
  {
    if !(dataLength == 1 && was) && newRows == {} && 0 in oldRows && dataLength >= 1
       && dataLength - 1 in oldRows && forall x :: x in oldRows ==> x < dataLength {
      assert Last(oldRows).value == dataLength - 1;
    }
  }

  /**
   * The hook's state: the grid selection (owned by the table and replaced through
   * `setGridSelection`), the previously clicked cell and whether the last
   * selection came from a cell click.
   */
  class RowSelector {
    var selection: GridSelection
    var prevSelectedCell: Item
    var wasSelectionFromCell: bool

    constructor(initial: GridSelection)
      ensures selection == initial
      ensures prevSelectedCell == Item(0, 0) && wasSelectionFromCell
    {
      selection := initial;
      prevSelectedCell := Item(0, 0);
      wasSelectionFromCell := true;
    }

    /** `selectCellRow(cell, isShiftSelect)`; `ctrl` is whether Ctrl is held down. */
    method SelectCellRow<T>(data: seq<T>, cell: Item, isShift: bool, ctrl: bool) returns (selected: seq<Option<T>>)
      modifies this
      ensures selection == old(selection).(rows := NextRows(old(selection.rows), old(prevSelectedCell.row), cell, isShift, ctrl))
      ensures prevSelectedCell == cell && wasSelectionFromCell
      ensures selected == Records(data, ToArray(selection.rows))
    {
      var rows := NextRows(selection.rows, prevSelectedCell.row, cell, isShift, ctrl);
      prevSelectedCell := cell;
      wasSelectionFromCell := true;
      selection := selection.(rows := rows);
      selected := Records(data, ToArray(rows));
    }

    /** `updateIfSelectAllRows(newSelection)`: `None` is the `undefined` the handler returns when it does nothing. */
    method UpdateIfSelectAllRows<T>(data: seq<T>, newSelection: GridSelection) returns (result: Option<seq<T>>)
      modifies this
      ensures var step := SelectAllDecision(|data|, old(selection.rows), newSelection.rows, old(wasSelectionFromCell));
        && (step == Swallow ==> result == None && selection == old(selection) && !wasSelectionFromCell)
        && (step == SelectAll ==>
              result == Some(data) && selection == newSelection && wasSelectionFromCell == old(wasSelectionFromCell))
        && (step == ClearAll ==>
              result == Some([]) && selection == old(selection).(rows := {}) && wasSelectionFromCell == old(wasSelectionFromCell))
        && (step == Ignore ==>
              result == None && selection == old(selection) && wasSelectionFromCell == old(wasSelectionFromCell))
      ensures prevSelectedCell == old(prevSelectedCell)
    {
      var step := SelectAllDecision(|data|, selection.rows, newSelection.rows, wasSelectionFromCell);
      match step
      case Swallow =>
        wasSelectionFromCell := false;
        result := None;
      case SelectAll =>
        selection := newSelection;
        result := Some(data);
      case ClearAll =>
        selection := selection.(rows := {});
        result := Some([]);
      case Ignore =>
        result := None;
    }
  }
}
