/**
 * The data table's paste handler. As in a spreadsheet, a selection whose width
 * and height are each 1 or a multiple of the copied block's is filled with
 * copies of the block; otherwise the block is pasted once at the selection's top
 * left corner. Read-only target cells are skipped, and the edits go to the
 * table's edit handler.
 */
module DataTablePaste {
  import opened Wrappers
  import opened TableTypes
  import opened DataTable

  /** What `onPaste` does: return a flag to the grid, hand edits on (and return `false`), or throw. */
  datatype PasteOutcome = Returned(flag: bool) | Pasted(edits: seq<EditItem>) | Crash(message: string)

  /** `a % b === 0` in JavaScript, where a remainder by zero is `NaN`. */
  predicate Divides(a: nat, b: nat)
  {
    b != 0 && a % b == 0
  }

  /**
   * Whether the selection is filled with copies of the block: along each side
   * that is not 1, a whole number of copies fits exactly.
   */
  function ShouldFill(selW: nat, selH: nat, copiedW: nat, copiedH: nat): (fill: bool)
    ensures fill && selW != 1 ==> copiedW > 0 && (selW / copiedW) * copiedW == selW
    ensures fill && selH != 1 ==> copiedH > 0 && (selH / copiedH) * copiedH == selH
    ensures !fill ==> (selW != 1 && (copiedW == 0 || selW % copiedW != 0)) || (selH != 1 && (copiedH == 0 || selH % copiedH != 0))
  {
    (selW == 1 || Divides(selW, copiedW)) && (selH == 1 || Divides(selH, copiedH))
  }

  /** How many copies of the block go along one dimension. */
  function Repeats(fill: bool, sel: nat, copied: nat): (n: nat)
    ensures fill && sel != 1 && Divides(sel, copied) ==> n * copied == sel
    ensures !fill || sel == 1 ==> n == 1
  {
    if !fill || sel == 1 then 1 else if copied == 0 then 0 else sel / copied
  }

  /** The fixed parameters of one paste: the block, the table, the top-left target and the repeat counts. */
  datatype PastePlan = PastePlan(
    copied: seq<seq<string>>, cols: seq<Column>, data: seq<Row>,
    x0: int, y0: int, cw: nat, ch: nat, xRepeat: nat, yRepeat: nat)

  /** The block's height is its number of rows. */
  predicate Valid(p: PastePlan)
  {
    p.ch == |p.copied|
  }

  /** The plan for pasting `copied` into the range `r`; the block's width is its first row's. */
  function Plan(r: Rect, copied: seq<seq<string>>, cols: seq<Column>, data: seq<Row>): (p: PastePlan)
    requires |copied| > 0
    ensures Valid(p) && p.cw == |copied[0]| && p.x0 == r.x && p.y0 == r.y
  {
    var cw := |copied[0]|;
    var ch := |copied|;
    var fill := ShouldFill(r.width, r.height, cw, ch);
    PastePlan(copied, cols, data, r.x, r.y, cw, ch, Repeats(fill, r.width, cw), Repeats(fill, r.height, ch))
  }

  /** `column.getIsReadonly?.(record) ?? false`. */
  function ReadOnly(column: Column, record: Option<Row>): bool
  {
    match column.getIsReadonly
    case None => false
    case Some(f) => f(record)
  }

  /** Joins two partial edit lists; a crash in either is a crash. */
  function Then(a: Option<seq<EditItem>>, b: Option<seq<EditItem>>): (r: Option<seq<EditItem>>)
    ensures r.Some? <==> a.Some? && b.Some?
    ensures r.Some? ==> r.value == a.value + b.value
  {
    if a.Some? && b.Some? then Some(a.value + b.value) else None
  }

  /**
   * An edit of copy `(xr, yr)` of the block: it writes the copied value found at
   * its offset in that copy, into a column that exists, of that column's kind,
   * and the target cell is not read-only.
   */
  predicate TileEdit(p: PastePlan, xr: nat, yr: nat, e: EditItem)
  {
    var ri := e.row - p.y0 - yr * p.ch;
    var ci := e.col - p.x0 - xr * p.cw;
    0 <= ri < |p.copied| && 0 <= ci < |p.copied[ri]| && e.value == Str(p.copied[ri][ci])
    && Writable(p, e)
  }

  predicate Writable(p: PastePlan, e: EditItem)
  {
    0 <= e.col < |p.cols| && e.kind == p.cols[e.col].kind && !ReadOnly(p.cols[e.col], At(p.data, e.row))
  }

  /** The column and row that value `ci` of copied row `ri` goes to in copy `(xr, yr)`. */
  function TargetCol(p: PastePlan, xr: nat, ci: nat): int
  {
    p.x0 + xr * p.cw + ci
  }

  function TargetRow(p: PastePlan, yr: nat, ri: nat): int
  {
    p.y0 + yr * p.ch + ri
  }

  /** The target exists and is not read-only. */
  predicate OpenTarget(p: PastePlan, xr: nat, yr: nat, ri: nat, ci: nat)
  {
    0 <= TargetCol(p, xr, ci) < |p.cols| && !ReadOnly(p.cols[TargetCol(p, xr, ci)], At(p.data, TargetRow(p, yr, ri)))
  }

  /** The edit pushed for that value: its target, the column's kind and the copied text. */
  function CellItem(p: PastePlan, xr: nat, yr: nat, ri: nat, ci: nat): EditItem
    requires ri < |p.copied| && ci < |p.copied[ri]| && 0 <= TargetCol(p, xr, ci) < |p.cols|
  {
    var col := TargetCol(p, xr, ci);
    EditItem(col, TargetRow(p, yr, ri), p.cols[col].kind, Str(p.copied[ri][ci]))
  }

  /** The edit for value `ci` of copied row `ri` in copy `(xr, yr)`; a missing column throws. */
  function CellEdit(p: PastePlan, xr: nat, yr: nat, ri: nat, ci: nat): (r: Option<seq<EditItem>>)
    requires ri < |p.copied| && ci < |p.copied[ri]|
    ensures r.None? <==> !(0 <= TargetCol(p, xr, ci) < |p.cols|)
    ensures OpenTarget(p, xr, yr, ri, ci) ==> r == Some([CellItem(p, xr, yr, ri, ci)])
    ensures r.Some? && !OpenTarget(p, xr, yr, ri, ci) ==> r == Some([])
    ensures r.Some? ==> forall k :: 0 <= k < |r.value| ==> TileEdit(p, xr, yr, r.value[k])
  {
    var row := TargetRow(p, yr, ri);
    var col := TargetCol(p, xr, ci);
    if !(0 <= col < |p.cols|) then None
    else if ReadOnly(p.cols[col], At(p.data, row)) then Some([])
    else Some([CellItem(p, xr, yr, ri, ci)])
  }

  /** `valueRow.forEach`: the edits of the first `n` values of copied row `ri`. */
  function RowEdits(p: PastePlan, xr: nat, yr: nat, ri: nat, n: nat): (r: Option<seq<EditItem>>)
    requires ri < |p.copied| && n <= |p.copied[ri]|
    ensures r.Some? ==> forall k :: 0 <= k < |r.value| ==> TileEdit(p, xr, yr, r.value[k])
  {
    if n == 0 then Some([]) else Then(RowEdits(p, xr, yr, ri, n - 1), CellEdit(p, xr, yr, ri, n - 1))
  }

  /** `copiedValues.forEach`: the edits of the first `n` copied rows, in copy `(xr, yr)`. */
  function BlockEdits(p: PastePlan, xr: nat, yr: nat, n: nat): (r: Option<seq<EditItem>>)
    requires n <= |p.copied|
    ensures r.Some? ==> forall k :: 0 <= k < |r.value| ==> TileEdit(p, xr, yr, r.value[k])
  {
    if n == 0 then Some([])
    else Then(BlockEdits(p, xr, yr, n - 1), RowEdits(p, xr, yr, n - 1, |p.copied[n - 1]|))
  }

  /** The inner `for`: the first `n` vertical copies in column copy `xr`; every edit targets a writable cell. */
  function ColumnEdits(p: PastePlan, xr: nat, n: nat): (r: Option<seq<EditItem>>)
    ensures r.Some? ==> forall k :: 0 <= k < |r.value| ==> Writable(p, r.value[k])
  {
    if n == 0 then Some([]) else Then(ColumnEdits(p, xr, n - 1), BlockEdits(p, xr, n - 1, |p.copied|))
  }

  /** The outer `for`: the first `n` horizontal copies; every edit targets a writable cell. */
  function AllEdits(p: PastePlan, n: nat): (r: Option<seq<EditItem>>)
    ensures r.Some? ==> forall k :: 0 <= k < |r.value| ==> Writable(p, r.value[k])
  {
    if n == 0 then Some([]) else Then(AllEdits(p, n - 1), ColumnEdits(p, n - 1, p.yRepeat))
  }

  /**
   * `handlePaste(_, copiedValues)` as a value: refused while editing with rows
   * selected, left to the grid when not editing or with no range, a crash on an
   * empty block, and otherwise the planned edits (or the crash of a missing column).
   */
  function PasteResult(editing: bool, selectedRows: nat, current: Option<Rect>, copied: seq<seq<string>>,
                       cols: seq<Column>, data: seq<Row>): (r: PasteOutcome)
    ensures editing && selectedRows > 0 ==> r == Returned(false)
    ensures !(editing && selectedRows > 0) && (current.None? || !editing) ==> r == Returned(true)
    ensures editing && selectedRows == 0 && current.Some? && |copied| == 0 ==> r.Crash?
    ensures r.Pasted? ==> editing && selectedRows == 0 && current.Some? && |copied| > 0
    ensures r.Pasted? ==> forall k :: 0 <= k < |r.edits| ==> Writable(Plan(current.value, copied, cols, data), r.edits[k])
  {
    if editing && selectedRows > 0 then Returned(false)
    else if current.None? || !editing then Returned(true)
    else if |copied| == 0 then Crash("Cannot read properties of undefined (reading 'length')")
    else
      var p := Plan(current.value, copied, cols, data);
      match AllEdits(p, p.xRepeat)
      case None => Crash("Cannot destructure property 'kind' of 'column' as it is undefined.")
      case Some(edits) => Pasted(edits)
  }

  // ---------------------------------------------------------------- the handler

  lemma {:induction false} RowCrashStays(p: PastePlan, xr: nat, yr: nat, ri: nat, n: nat, m: nat)
    requires ri < |p.copied| && n <= m <= |p.copied[ri]|
    requires RowEdits(p, xr, yr, ri, n).None?
    ensures RowEdits(p, xr, yr, ri, m).None?
    decreases m - n
  {
    if n < m {
      RowCrashStays(p, xr, yr, ri, n + 1, m);
    }
  }

  lemma {:induction false} BlockCrashStays(p: PastePlan, xr: nat, yr: nat, n: nat, m: nat)
    requires n <= m <= |p.copied|
    requires BlockEdits(p, xr, yr, n).None?
    ensures BlockEdits(p, xr, yr, m).None?
    decreases m - n
  {
    if n < m {
      BlockCrashStays(p, xr, yr, n + 1, m);
    }
  }

  lemma {:induction false} ColumnCrashStays(p: PastePlan, xr: nat, n: nat, m: nat)
    requires n <= m
    requires ColumnEdits(p, xr, n).None?
    ensures ColumnEdits(p, xr, m).None?
    decreases m - n
  {
    if n < m {
      ColumnCrashStays(p, xr, n + 1, m);
    }
  }

  lemma {:induction false} AllCrashStays(p: PastePlan, n: nat, m: nat)
    requires n <= m
    requires AllEdits(p, n).None?
    ensures AllEdits(p, m).None?
    decreases m - n
  {
    if n < m {
      AllCrashStays(p, n + 1, m);
    }
  }

  /** `valueRow.forEach`: one edit per value of copied row `ri`, skipping read-only targets. */
  method PasteValueRow(p: PastePlan, xr: nat, yr: nat, ri: nat) returns (r: Option<seq<EditItem>>)
    requires ri < |p.copied|
    ensures r == RowEdits(p, xr, yr, ri, |p.copied[ri]|)
  {
    var valueRow := p.copied[ri];
    var acc: seq<EditItem> := [];
    var ci := 0;
    while ci < |valueRow|
      invariant 0 <= ci <= |valueRow|
      invariant RowEdits(p, xr, yr, ri, ci) == Some(acc)
    {
      var row := TargetRow(p, yr, ri);
      var col := TargetCol(p, xr, ci);
      if !(0 <= col < |p.cols|) {
        RowCrashStays(p, xr, yr, ri, ci + 1, |valueRow|);
        return None;
      }
      var column := p.cols[col];
      if !ReadOnly(column, At(p.data, row)) {
        acc := acc + [EditItem(col, row, column.kind, Str(valueRow[ci]))];
      } else {
        assert acc + [] == acc;
      }
      assert RowEdits(p, xr, yr, ri, ci + 1) == Then(RowEdits(p, xr, yr, ri, ci), CellEdit(p, xr, yr, ri, ci));
      ci := ci + 1;
    }
    return Some(acc);
  }

  /** `copiedValues.forEach`: copy `(xr, yr)` of the whole block. */
  method PasteBlock(p: PastePlan, xr: nat, yr: nat) returns (r: Option<seq<EditItem>>)
    ensures r == BlockEdits(p, xr, yr, |p.copied|)
  {
    var acc: seq<EditItem> := [];
    var ri := 0;
    while ri < |p.copied|
      invariant 0 <= ri <= |p.copied|
      invariant BlockEdits(p, xr, yr, ri) == Some(acc)
    {
      var row := PasteValueRow(p, xr, yr, ri);
      if row.None? {
        BlockCrashStays(p, xr, yr, ri + 1, |p.copied|);
        return None;
      }
      acc := acc + row.value;
      ri := ri + 1;
    }
    return Some(acc);
  }

  /**
   * `handlePaste`: `selectedRows` is the number of wholly selected rows and
   * `current` the current range. While editing with whole rows selected the paste
   * is refused; when not editing, or with no range, the grid pastes by itself.
   */
  method Paste(editing: bool, selectedRows: nat, current: Option<Rect>, copied: seq<seq<string>>,
               cols: seq<Column>, data: seq<Row>) returns (out: PasteOutcome)
    ensures out == PasteResult(editing, selectedRows, current, copied, cols, data)
  {
    if editing && selectedRows > 0 {
      return Returned(false);
    }
    if current.None? || !editing {
      return Returned(true);
    }
    if |copied| == 0 {
      return Crash("Cannot read properties of undefined (reading 'length')");
    }
    var p := Plan(current.value, copied, cols, data);
    var newData: seq<EditItem> := [];
    var xr := 0;
    while xr < p.xRepeat
      invariant 0 <= xr <= p.xRepeat
      invariant AllEdits(p, xr) == Some(newData)
    {
      var column := PasteColumn(p, xr);
      if column.None? {
        AllCrashStays(p, xr + 1, p.xRepeat);
        return Crash("Cannot destructure property 'kind' of 'column' as it is undefined.");
      }
      newData := newData + column.value;
      xr := xr + 1;
    }
    return Pasted(newData);
  }

  /** The inner `for` over the vertical repeats of horizontal repeat `xr`. */
  method PasteColumn(p: PastePlan, xr: nat) returns (r: Option<seq<EditItem>>)
    ensures r == ColumnEdits(p, xr, p.yRepeat)
  {
    var column: seq<EditItem> := [];
    var yr := 0;
    while yr < p.yRepeat
      invariant 0 <= yr <= p.yRepeat
      invariant ColumnEdits(p, xr, yr) == Some(column)
    {
      var block := PasteBlock(p, xr, yr);
      if block.None? {
        ColumnCrashStays(p, xr, yr + 1, p.yRepeat);
        return None;
      }
      column := column + block.value;
      yr := yr + 1;
    }
    return Some(column);
  }

  // ---------------------------------------------------------------- properties

  /** Filling makes the copies cover the selection exactly along every dimension that is not 1. */
  lemma FillCoversSelection(r: Rect, copied: seq<seq<string>>, cols: seq<Column>, data: seq<Row>)
    requires |copied| > 0
    ensures var p := Plan(r, copied, cols, data);
      (ShouldFill(r.width, r.height, p.cw, p.ch) && r.width != 1 ==> p.xRepeat * p.cw == r.width)
      && (ShouldFill(r.width, r.height, p.cw, p.ch) && r.height != 1 ==> p.yRepeat * p.ch == r.height)
      && (!ShouldFill(r.width, r.height, p.cw, p.ch) ==> p.xRepeat == 1 && p.yRepeat == 1)
  {
  }

  /** The block fits the selection evenly only when each side is 1 or a multiple of the block's side. */
  lemma FillExamples()
    ensures ShouldFill(4, 6, 2, 3) && ShouldFill(1, 6, 2, 3) && !ShouldFill(5, 6, 2, 3) && !ShouldFill(4, 6, 0, 3)
  {
  }

  /** Every block copy is all in all copied rows: every row is nonempty and of the same width. */
  predicate Rectangular(p: PastePlan)
  {
    Valid(p) && p.ch > 0 && p.cw > 0 && forall ri :: 0 <= ri < |p.copied| ==> |p.copied[ri]| == p.cw
  }

  /**
   * A pasted cell holds the copied value at its offset from the top-left corner,
   * taken modulo the block's size, and lies within the copies pasted.
   */
  predicate Tiled(p: PastePlan, e: EditItem, xs: nat, ys: nat)
    requires Rectangular(p)
  {
    p.x0 <= e.col < p.x0 + xs * p.cw && p.y0 <= e.row < p.y0 + ys * p.ch
    && e.value == Str(p.copied[(e.row - p.y0) % p.ch][(e.col - p.x0) % p.cw])
  }

  lemma MulAtLeast(k: int, d: int)
    requires k >= 1 && d > 0
    ensures k * d >= d
  {
  }

  /** Euclidean division of `q * d + i` by `d` gives back `q` and `i`. */
  lemma TileIndex(q: int, d: int, i: int)
    requires d > 0 && 0 <= i < d
    ensures (q * d + i) % d == i && (q * d + i) / d == q
  {
    var n := q * d + i;
    var q' := n / d;
    var i' := n % d;
    assert n == q' * d + i';
    assert (q - q') * d == i' - i;
    if q > q' {
      MulAtLeast(q - q', d);
    } else if q < q' {
      MulAtLeast(q' - q, d);
    }
  }

  lemma TileBound(q: nat, n: nat, d: nat, i: int)
    requires q < n && 0 <= i < d
    ensures q * d + i < n * d
  {
    assert q * d + d <= n * d by {
      assert (q + 1) * d <= n * d;
    }
  }

  lemma TileEditTiled(p: PastePlan, xr: nat, yr: nat, xs: nat, ys: nat, e: EditItem)
    requires Rectangular(p) && xr < xs && yr < ys && TileEdit(p, xr, yr, e)
    ensures Tiled(p, e, xs, ys) && Writable(p, e)
  {
    var ri := e.row - p.y0 - yr * p.ch;
    var ci := e.col - p.x0 - xr * p.cw;
    TileIndex(yr, p.ch, ri);
    TileIndex(xr, p.cw, ci);
    TileBound(yr, ys, p.ch, ri);
    TileBound(xr, xs, p.cw, ci);
    assert e.row - p.y0 == yr * p.ch + ri;
    assert e.col - p.x0 == xr * p.cw + ci;
  }

  lemma {:induction false} ColumnEditsTiled(p: PastePlan, xr: nat, xs: nat, n: nat)
    requires Rectangular(p) && xr < xs && ColumnEdits(p, xr, n).Some?
    ensures forall k :: 0 <= k < |ColumnEdits(p, xr, n).value| ==>
      Tiled(p, ColumnEdits(p, xr, n).value[k], xs, n) && Writable(p, ColumnEdits(p, xr, n).value[k])
  {
    if n > 0 {
      ColumnEditsTiled(p, xr, xs, n - 1);
      var prev := ColumnEdits(p, xr, n - 1).value;
      var block := BlockEdits(p, xr, n - 1, |p.copied|).value;
      forall k | 0 <= k < |prev + block|
        ensures Tiled(p, (prev + block)[k], xs, n) && Writable(p, (prev + block)[k])
      {
        if k < |prev| {
          assert (prev + block)[k] == prev[k];
          assert (n - 1) * p.ch <= n * p.ch;
        } else {
          assert (prev + block)[k] == block[k - |prev|];
          TileEditTiled(p, xr, n - 1, xs, n, block[k - |prev|]);
        }
      }
    }
  }

  lemma {:induction false} AllEditsTiled(p: PastePlan, n: nat)
    requires Rectangular(p) && AllEdits(p, n).Some?
    ensures forall k :: 0 <= k < |AllEdits(p, n).value| ==>
      Tiled(p, AllEdits(p, n).value[k], n, p.yRepeat) && Writable(p, AllEdits(p, n).value[k])
  {
    if n > 0 {
      AllEditsTiled(p, n - 1);
      ColumnEditsTiled(p, n - 1, n, p.yRepeat);
      var prev := AllEdits(p, n - 1).value;
      var column := ColumnEdits(p, n - 1, p.yRepeat).value;
      forall k | 0 <= k < |prev + column|
        ensures Tiled(p, (prev + column)[k], n, p.yRepeat) && Writable(p, (prev + column)[k])
      {
        if k < |prev| {
          assert (prev + column)[k] == prev[k];
          assert (n - 1) * p.cw <= n * p.cw;
        } else {
          assert (prev + column)[k] == column[k - |prev|];
        }
      }
    }
  }

  /**
   * For a rectangular block, every pasted edit lands inside the pasted copies,
   * carries the copied value at its offset modulo the block's size, and targets a
   * cell that is not read-only, with the column's kind.
   */
  lemma PasteTiles(editing: bool, current: Option<Rect>, copied: seq<seq<string>>, cols: seq<Column>, data: seq<Row>)
    requires editing && current.Some? && |copied| > 0
    requires Rectangular(Plan(current.value, copied, cols, data))
    requires PasteResult(editing, 0, current, copied, cols, data).Pasted?
    ensures var p := Plan(current.value, copied, cols, data);
      var edits := PasteResult(editing, 0, current, copied, cols, data).edits;
      forall k :: 0 <= k < |edits| ==> Tiled(p, edits[k], p.xRepeat, p.yRepeat) && Writable(p, edits[k])
  {
    var p := Plan(current.value, copied, cols, data);
    AllEditsTiled(p, p.xRepeat);
  }

  // ---------------------------------------------------------------- every open target is written once

  lemma {:induction false} RowEditsComplete(p: PastePlan, xr: nat, yr: nat, ri: nat, n: nat)
    requires ri < |p.copied| && n <= |p.copied[ri]| && RowEdits(p, xr, yr, ri, n).Some?
    ensures forall ci :: 0 <= ci < n && OpenTarget(p, xr, yr, ri, ci) ==>
      CellItem(p, xr, yr, ri, ci) in RowEdits(p, xr, yr, ri, n).value
  {
    if n > 0 {
      RowEditsComplete(p, xr, yr, ri, n - 1);
    }
  }

  lemma {:induction false} BlockEditsComplete(p: PastePlan, xr: nat, yr: nat, n: nat)
    requires n <= |p.copied| && BlockEdits(p, xr, yr, n).Some?
    ensures forall ri, ci :: 0 <= ri < n && 0 <= ci < |p.copied[ri]| && OpenTarget(p, xr, yr, ri, ci) ==>
      CellItem(p, xr, yr, ri, ci) in BlockEdits(p, xr, yr, n).value
  {
    if n > 0 {
      BlockEditsComplete(p, xr, yr, n - 1);
      RowEditsComplete(p, xr, yr, n - 1, |p.copied[n - 1]|);
    }
  }

  lemma {:induction false} ColumnEditsComplete(p: PastePlan, xr: nat, n: nat)
    requires ColumnEdits(p, xr, n).Some?
    ensures forall yr, ri, ci ::
      (0 <= yr < n && 0 <= ri < |p.copied| && 0 <= ci < |p.copied[ri]| && OpenTarget(p, xr, yr, ri, ci)) ==>
      CellItem(p, xr, yr, ri, ci) in ColumnEdits(p, xr, n).value
  {
    if n > 0 {
      ColumnEditsComplete(p, xr, n - 1);
      BlockEditsComplete(p, xr, n - 1, |p.copied|);
    }
  }

  lemma {:induction false} AllEditsComplete(p: PastePlan, n: nat)
    requires AllEdits(p, n).Some?
    ensures forall xr, yr, ri, ci ::
      (0 <= xr < n && 0 <= yr < p.yRepeat && 0 <= ri < |p.copied| && 0 <= ci < |p.copied[ri]| && OpenTarget(p, xr, yr, ri, ci)) ==>
      CellItem(p, xr, yr, ri, ci) in AllEdits(p, n).value
  {
    if n > 0 {
      AllEditsComplete(p, n - 1);
      ColumnEditsComplete(p, n - 1, p.yRepeat);
    }
  }

  /** `a` is pushed before `b` within one column copy: an earlier row, or the same row and an earlier column. */
  predicate RowMajor(a: EditItem, b: EditItem)
  {
    a.row < b.row || (a.row == b.row && a.col < b.col)
  }

  lemma {:induction false} RowEditsOrdered(p: PastePlan, xr: nat, yr: nat, ri: nat, n: nat)
    requires ri < |p.copied| && n <= |p.copied[ri]| && RowEdits(p, xr, yr, ri, n).Some?
    ensures var r := RowEdits(p, xr, yr, ri, n).value;
      (forall k :: 0 <= k < |r| ==> r[k].row == TargetRow(p, yr, ri) && r[k].col < TargetCol(p, xr, n))
      && forall i, j :: 0 <= i < j < |r| ==> RowMajor(r[i], r[j])
  {
    if n > 0 {
      RowEditsOrdered(p, xr, yr, ri, n - 1);
    }
  }

  lemma {:induction false} BlockEditsOrdered(p: PastePlan, xr: nat, yr: nat, n: nat)
    requires n <= |p.copied| && BlockEdits(p, xr, yr, n).Some?
    ensures var r := BlockEdits(p, xr, yr, n).value;
      (forall k :: 0 <= k < |r| ==> r[k].row < TargetRow(p, yr, n))
      && forall i, j :: 0 <= i < j < |r| ==> RowMajor(r[i], r[j])
  {
    if n > 0 {
      BlockEditsOrdered(p, xr, yr, n - 1);
      RowEditsOrdered(p, xr, yr, n - 1, |p.copied[n - 1]|);
    }
  }

  /** The edits of column copy `xr` lie in its columns and in the first `n` vertical copies, in row-major order. */
  lemma {:induction false} ColumnEditsOrdered(p: PastePlan, xr: nat, n: nat)
    requires Rectangular(p) && ColumnEdits(p, xr, n).Some?
    ensures var r := ColumnEdits(p, xr, n).value;
      (forall k :: 0 <= k < |r| ==> TargetCol(p, xr, 0) <= r[k].col < TargetCol(p, xr, p.cw) && r[k].row < TargetRow(p, n, 0))
      && forall i, j :: 0 <= i < j < |r| ==> RowMajor(r[i], r[j])
  {
    if n > 0 {
      ColumnEditsOrdered(p, xr, n - 1);
      BlockEditsOrdered(p, xr, n - 1, |p.copied|);
      var prev := ColumnEdits(p, xr, n - 1).value;
      var block := BlockEdits(p, xr, n - 1, |p.copied|).value;
      var r := prev + block;
      assert TargetRow(p, n - 1, |p.copied|) == TargetRow(p, n, 0) by {
        assert (n - 1) * p.ch + p.ch == n * p.ch;
      }
      assert TargetRow(p, n - 1, 0) <= TargetRow(p, n, 0);
      forall k | 0 <= k < |r|
        ensures TargetCol(p, xr, 0) <= r[k].col < TargetCol(p, xr, p.cw) && r[k].row < TargetRow(p, n, 0)
      {
        if k >= |prev| {
          assert r[k] == block[k - |prev|];
          assert TileEdit(p, xr, n - 1, block[k - |prev|]);
        } else {
          assert r[k] == prev[k];
        }
      }
      forall k | 0 <= k < |block| ensures TargetRow(p, n - 1, 0) <= block[k].row {
        assert TileEdit(p, xr, n - 1, block[k]);
      }
      RowMajorAppend(prev, block, TargetRow(p, n - 1, 0));
    }
  }

  /** Two row-major runs, the first wholly above the second, make one row-major run. */
  lemma RowMajorAppend(a: seq<EditItem>, b: seq<EditItem>, bound: int)
    requires forall i, j :: 0 <= i < j < |a| ==> RowMajor(a[i], a[j])
    requires forall i, j :: 0 <= i < j < |b| ==> RowMajor(b[i], b[j])
    requires forall k :: 0 <= k < |a| ==> a[k].row < bound
    requires forall k :: 0 <= k < |b| ==> bound <= b[k].row
    ensures forall i, j :: 0 <= i < j < |a + b| ==> RowMajor((a + b)[i], (a + b)[j])
  {
    var r := a + b;
    forall i, j | 0 <= i < j < |r| ensures RowMajor(r[i], r[j]) {
      if j < |a| {
        assert r[i] == a[i] && r[j] == a[j];
      } else if i >= |a| {
        assert r[i] == b[i - |a|] && r[j] == b[j - |a|];
      } else {
        assert r[i] == a[i] && r[j] == b[j - |a|];
      }
    }
  }

  /** No two edits of the first `n` column copies share a target; they lie left of column copy `n`. */
  lemma {:induction false} AllEditsDistinct(p: PastePlan, n: nat)
    requires Rectangular(p) && AllEdits(p, n).Some?
    ensures var r := AllEdits(p, n).value;
      (forall k :: 0 <= k < |r| ==> r[k].col < TargetCol(p, n, 0))
      && forall i, j :: 0 <= i < j < |r| ==> r[i].col != r[j].col || r[i].row != r[j].row
  {
    if n > 0 {
      AllEditsDistinct(p, n - 1);
      ColumnEditsOrdered(p, n - 1, p.yRepeat);
      var prev := AllEdits(p, n - 1).value;
      var column := ColumnEdits(p, n - 1, p.yRepeat).value;
      var r := prev + column;
      assert TargetCol(p, n - 1, p.cw) == TargetCol(p, n, 0) by {
        assert (n - 1) * p.cw + p.cw == n * p.cw;
      }
      assert TargetCol(p, n - 1, 0) <= TargetCol(p, n, 0);
      forall k | 0 <= k < |r| ensures r[k].col < TargetCol(p, n, 0) {
        if k >= |prev| {
          assert r[k] == column[k - |prev|];
        } else {
          assert r[k] == prev[k];
        }
      }
      forall i, j | 0 <= i < j < |r| ensures r[i].col != r[j].col || r[i].row != r[j].row {
        if j < |prev| {
          assert r[i] == prev[i] && r[j] == prev[j];
        } else if i >= |prev| {
          assert r[i] == column[i - |prev|] && r[j] == column[j - |prev|];
          assert RowMajor(r[i], r[j]);
        } else {
          assert r[i] == prev[i] && r[j] == column[j - |prev|];
        }
      }
    }
  }

  /**
   * For a rectangular block, the paste writes every cell of the copies that exists
   * and is not read-only, with the copied value at its offset, and no cell twice.
   */
  lemma PasteComplete(editing: bool, current: Option<Rect>, copied: seq<seq<string>>, cols: seq<Column>, data: seq<Row>)
    requires editing && current.Some? && |copied| > 0
    requires Rectangular(Plan(current.value, copied, cols, data))
    requires PasteResult(editing, 0, current, copied, cols, data).Pasted?
    ensures var p := Plan(current.value, copied, cols, data);
      var edits := PasteResult(editing, 0, current, copied, cols, data).edits;
      (forall xr, yr, ri, ci ::
         (0 <= xr < p.xRepeat && 0 <= yr < p.yRepeat && 0 <= ri < p.ch && 0 <= ci < p.cw && OpenTarget(p, xr, yr, ri, ci)) ==>
         CellItem(p, xr, yr, ri, ci) in edits)
      && forall i, j :: 0 <= i < j < |edits| ==> edits[i].col != edits[j].col || edits[i].row != edits[j].row
  {
    var p := Plan(current.value, copied, cols, data);
    AllEditsComplete(p, p.xRepeat);
    AllEditsDistinct(p, p.xRepeat);
  }
}
