/**
 * The editing logic of the data table: the content of a grid cell, the
 * Delete/Backspace range clear, the values offered by a column's filter menu,
 * and the handler that validates edits, reports them and folds them into the
 * table's local copy of its data.
 */
module DataTable {
  import opened Wrappers
  import opened TableTypes
  import opened JsText
  import opened EnhancedData

  /** What the grid shows in a cell: whether it opens an editor overlay, its kind and its text. */
  datatype GridCell = GridCell(allowOverlay: bool, kind: CellKind, data: string)

  /** An edit the grid reports: the target `[col, row]`, the kind of the new cell and its value. */
  datatype EditItem = EditItem(col: int, row: int, kind: CellKind, value: Cell)

  /** A selected range of cells. */
  datatype Rect = Rect(x: int, y: int, width: nat, height: nat)

  /** The cell shown where there is no record or no column: plain text with no editor. */
  const EmptyCell := GridCell(false, TextCell, "")

  // ---------------------------------------------------------------- getCellContent

  /** `getCellContent([col, row])`; `format` is the cell formatter, a collaborator of the table. */
  function CellContent(data: seq<Row>, cols: seq<Column>, col: int, row: int,
                       format: (Column, Row) -> GridCell): (c: GridCell)
    ensures !(0 <= row < |data| && 0 <= col < |cols|) ==> c == EmptyCell && !c.allowOverlay
    ensures 0 <= row < |data| && 0 <= col < |cols| ==> c == format(cols[col], data[row])
  {
    if 0 <= row < |data| && 0 <= col < |cols| then format(cols[col], data[row]) else EmptyCell
  }

  // ---------------------------------------------------------------- handleKeyDown

  /** The cells of one row of a range, left to right. */
  function RowCells(x: int, y: int, w: nat): (r: seq<(int, int)>)
    ensures |r| == w && forall j :: 0 <= j < w ==> r[j] == (x + j, y)
  {
    seq(w, j requires 0 <= j < w => (x + j, y))
  }

  /** The cells of the first `h` rows of a range, row by row. */
  function RangeRows(r: Rect, h: nat): seq<(int, int)>
  {
    if h == 0 then [] else RangeRows(r, h - 1) + RowCells(r.x, r.y + h - 1, r.width)
  }

  /** Every cell of a range, row by row and left to right within a row. */
  function RangeCells(r: Rect): seq<(int, int)>
  {
    RangeRows(r, r.height)
  }

  /** The range holds exactly its `width * height` cells, and a cell is among them exactly when it lies inside it. */
  lemma {:induction false} RangeRowsCover(r: Rect, h: nat)
    ensures |RangeRows(r, h)| == h * r.width
    ensures forall p: (int, int) :: p in RangeRows(r, h) <==> r.x <= p.0 < r.x + r.width && r.y <= p.1 < r.y + h
  {
    if h > 0 {
      RangeRowsCover(r, h - 1);
      var prev := RangeRows(r, h - 1);
      var row := RowCells(r.x, r.y + h - 1, r.width);
      assert RangeRows(r, h) == prev + row;
      forall p: (int, int) | r.x <= p.0 < r.x + r.width && p.1 == r.y + h - 1 ensures p in row {
        assert row[p.0 - r.x] == p;
      }
    }
  }

  lemma RangeRowsStep(r: Rect, i: nat)
    ensures RangeRows(r, i + 1) == RangeRows(r, i) + RowCells(r.x, r.y + i, r.width)
  {
    assert r.y + (i + 1) - 1 == r.y + i;
  }

  lemma {:induction false} RangeRowsGrow(r: Rect, h: nat, h': nat, p: (int, int))
    requires h <= h' && p in RangeRows(r, h)
    ensures p in RangeRows(r, h')
    decreases h' - h
  {
    if h < h' {
      RangeRowsGrow(r, h + 1, h', p);
    }
  }

  /** The edit that clears a cell: an empty custom value. */
  function ClearEdit(loc: (int, int)): EditItem
  {
    EditItem(loc.0, loc.1, CustomCell, Str(""))
  }

  function ClearEdits(locs: seq<(int, int)>): (r: seq<EditItem>)
    ensures |r| == |locs| && forall k :: 0 <= k < |locs| ==> r[k] == ClearEdit(locs[k])
  {
    seq(|locs|, k requires 0 <= k < |locs| => ClearEdit(locs[k]))
  }

  /** Only a cell with an editor overlay that is a custom cell can be cleared. */
  predicate Clearable(c: GridCell)
  {
    c.allowOverlay && c.kind == CustomCell
  }

  predicate AllClearable(r: Rect, cell: (int, int) -> GridCell)
  {
    forall p :: p in RangeCells(r) ==> Clearable(cell(p.0, p.1))
  }

  lemma ClearEditsAppend(a: seq<(int, int)>, b: seq<(int, int)>)
    ensures ClearEdits(a + b) == ClearEdits(a) + ClearEdits(b)
  {
    assert |ClearEdits(a + b)| == |ClearEdits(a) + ClearEdits(b)|;
    forall k | 0 <= k < |a + b| ensures ClearEdits(a + b)[k] == (ClearEdits(a) + ClearEdits(b))[k] {
      if k >= |a| {
        assert (a + b)[k] == b[k - |a|];
      }
    }
  }

  /** The inner loop of `handleKeyDown`: the clears of row `y`, or `false` at the first cell that cannot be cleared. */
  method ClearRow(x: int, y: int, width: nat, cell: (int, int) -> GridCell) returns (ok: bool, edits: seq<EditItem>)
    ensures ok <==> forall p :: p in RowCells(x, y, width) ==> Clearable(cell(p.0, p.1))
    ensures ok ==> edits == ClearEdits(RowCells(x, y, width))
  {
    edits := [];
    var j := 0;
    while j < width
      invariant 0 <= j <= width
      invariant edits == ClearEdits(RowCells(x, y, j))
      invariant forall p :: p in RowCells(x, y, j) ==> Clearable(cell(p.0, p.1))
    {
      var c := cell(x + j, y);
      if !c.allowOverlay || c.kind != CustomCell {
        assert RowCells(x, y, width)[j] == (x + j, y);
        return false, edits;
      }
      assert RowCells(x, y, j + 1) == RowCells(x, y, j) + [(x + j, y)];
      ClearEditsAppend(RowCells(x, y, j), [(x + j, y)]);
      edits := edits + [ClearEdit((x + j, y))];
      j := j + 1;
    }
    return true, edits;
  }

  /** The two loops of `handleKeyDown`: the clears of the whole range, or `None` at the first cell that cannot be cleared. */
  method ClearRange(r: Rect, cell: (int, int) -> GridCell) returns (edits: Option<seq<EditItem>>)
    ensures edits.Some? <==> AllClearable(r, cell)
    ensures edits.Some? ==> edits.value == ClearEdits(RangeCells(r))
  {
    var acc: seq<EditItem> := [];
    var i := 0;
    while i < r.height
      invariant 0 <= i <= r.height
      invariant acc == ClearEdits(RangeRows(r, i))
      invariant forall p :: p in RangeRows(r, i) ==> Clearable(cell(p.0, p.1))
    {
      var ok, row := ClearRow(r.x, r.y + i, r.width, cell);
      ghost var cells := RowCells(r.x, r.y + i, r.width);
      RangeRowsStep(r, i);
      if !ok {
        ghost var p :| p in cells && !Clearable(cell(p.0, p.1));
        RangeRowsGrow(r, i + 1, r.height, p);
        return None;
      }
      ClearEditsAppend(RangeRows(r, i), cells);
      acc := acc + row;
      i := i + 1;
    }
    return Some(acc);
  }

  /**
   * `handleKeyDown`: Delete or Backspace while editing clears every cell of the
   * current range, row by row; a single cell that cannot be cleared cancels the
   * whole clear. `None` is a return without editing anything.
   */
  method KeyDown(editing: bool, key: string, current: Option<Rect>, cell: (int, int) -> GridCell)
    returns (edits: Option<seq<EditItem>>)
    ensures edits.Some? <==>
      editing && (key == "Delete" || key == "Backspace") && current.Some? && AllClearable(current.value, cell)
    ensures edits.Some? ==> edits.value == ClearEdits(RangeCells(current.value))
  {
    if !editing || (key != "Delete" && key != "Backspace") || current.None? {
      return None;
    }
    edits := ClearRange(current.value, cell);
  }

  /** A range that reaches past the table's records or columns can never be cleared. */
  lemma ClearPastTableRefused(r: Rect, data: seq<Row>, cols: seq<Column>, format: (Column, Row) -> GridCell)
    requires r.width > 0 && r.height > 0
    requires r.x < 0 || r.y < 0 || r.x + r.width > |cols| || r.y + r.height > |data|
    ensures !AllClearable(r, (c, w) => CellContent(data, cols, c, w, format))
  {
    RangeRowsCover(r, r.height);
    var px := if r.x < 0 || r.x + r.width <= |cols| then r.x else r.x + r.width - 1;
    var py := if r.x < 0 || r.x + r.width > |cols| then r.y
              else if r.y < 0 then r.y else r.y + r.height - 1;
    assert (px, py) in RangeCells(r);
    assert !Clearable(CellContent(data, cols, px, py, format));
  }

  // ---------------------------------------------------------------- currentFilterValues

  /** `omit(filters, [id])`. */
  function Omit(filters: seq<FilterEntry>, id: string): (r: seq<FilterEntry>)
    ensures forall i :: 0 <= i < |r| ==> r[i] in filters && r[i].columnId != id
    ensures forall i :: 0 <= i < |filters| && filters[i].columnId != id ==> filters[i] in r
  {
    if |filters| == 0 then []
    else if filters[0].columnId == id then Omit(filters[1..], id)
    else [filters[0]] + Omit(filters[1..], id)
  }

  /** In the filter menu a filter on an unknown column lets nothing through. */
  function MenuEntryAccepts(cols: seq<Column>, e: FilterEntry, cellData: (Column, Row) -> string, r: Row): bool
  {
    match FindColumn(cols, e.columnId)
    case None => false
    case Some(k) =>
      var content := cellData(cols[k], r);
      (content == "" && "Empty" in e.items) || content in e.items
  }

  predicate PassesAll(cols: seq<Column>, filters: seq<FilterEntry>, cellData: (Column, Row) -> string, r: Row)
  {
    forall i :: 0 <= i < |filters| ==> MenuEntryAccepts(cols, filters[i], cellData, r)
  }

  /** The `flatMap`: the non-empty contents of `column` among the records the filters let through. */
  function MenuValues(column: Column, cols: seq<Column>, others: seq<FilterEntry>,
                      cellData: (Column, Row) -> string, records: seq<Row>): (r: seq<string>)
    ensures forall v :: v in r <==>
      exists i :: 0 <= i < |records| && PassesAll(cols, others, cellData, records[i])
                  && cellData(column, records[i]) == v && v != ""
  {
    if |records| == 0 then []
    else
      var rest := MenuValues(column, cols, others, cellData, records[1..]);
      var rec := records[0];
      assert forall i :: 1 <= i < |records| ==> records[i] == records[1..][i - 1];
      if PassesAll(cols, others, cellData, rec) && cellData(column, rec) != "" then [cellData(column, rec)] + rest
      else rest
  }

  /** Where `v` first appears in `s`. */
  function FirstIndex(s: seq<string>, v: string): (k: nat)
    requires v in s
    ensures k < |s| && s[k] == v
    ensures forall j :: 0 <= j < k ==> s[j] != v
  {
    if s[0] == v then 0 else 1 + FirstIndex(s[1..], v)
  }

  /** A value of a prefix first appears at the same place in the whole sequence. */
  lemma FirstIndexOfPrefix(s: seq<string>, m: nat, v: string)
    requires m <= |s| && v in s[..m]
    ensures FirstIndex(s, v) == FirstIndex(s[..m], v)
  {
    var k1 := FirstIndex(s, v);
    var k2 := FirstIndex(s[..m], v);
    assert s[k2] == v;
  }

  /** The values of `r`, all from `s`, are listed in order of first appearance in `s`. */
  predicate InFirstAppearanceOrder(r: seq<string>, s: seq<string>)
    requires forall i :: 0 <= i < |r| ==> r[i] in s
  {
    forall i, j :: 0 <= i < j < |r| ==> FirstIndex(s, r[i]) < FirstIndex(s, r[j])
  }

  /** Appending a value keeps the order of the values already seen, and a new value comes last. */
  lemma FirstAppearanceExtends(p: seq<string>, x: string, d: seq<string>)
    requires forall i :: 0 <= i < |d| ==> d[i] in p
    requires InFirstAppearanceOrder(d, p)
    ensures forall i :: 0 <= i < |d| ==> d[i] in p + [x]
    ensures InFirstAppearanceOrder(d, p + [x])
    ensures x !in p ==> forall i :: 0 <= i < |d + [x]| ==> (d + [x])[i] in p + [x]
    ensures x !in p ==> InFirstAppearanceOrder(d + [x], p + [x])
  {
    var s := p + [x];
    assert s[..|p|] == p;
    forall i | 0 <= i < |d| ensures FirstIndex(s, d[i]) == FirstIndex(p, d[i]) {
      FirstIndexOfPrefix(s, |p|, d[i]);
    }
    if x !in p {
      var e := d + [x];
      assert FirstIndex(s, x) == |p|;
      forall i, j | 0 <= i < j < |e| ensures FirstIndex(s, e[i]) < FirstIndex(s, e[j]) {
        if j < |d| {
          assert e[i] == d[i] && e[j] == d[j];
        } else {
          assert e[i] == d[i] && e[j] == x;
        }
      }
    }
  }

  /** `Array.from(new Set(values))`: each value once, in order of first appearance. */
  function Distinct(s: seq<string>): (r: seq<string>)
    ensures forall v :: v in r <==> v in s
    ensures forall i, j :: 0 <= i < j < |r| ==> r[i] != r[j]
    ensures InFirstAppearanceOrder(r, s)
  {
    if |s| == 0 then []
    else
      var p := s[..|s| - 1];
      var d := Distinct(p);
      assert s == p + [s[|s| - 1]];
      assert forall v :: v in s <==> v in p || v == s[|s| - 1];
      FirstAppearanceExtends(p, s[|s| - 1], d);
      if s[|s| - 1] in d then d else d + [s[|s| - 1]]
  }

  /**
   * `currentFilterValues`: with no open menu, nothing; otherwise the distinct
   * non-empty contents of the menu's column among the local records that pass
   * every other column's filter. A menu on a column index the table does not
   * have reads a property of `undefined`, which throws.
   */
  function CurrentFilterValues(menuCol: Option<int>, cols: seq<Column>, filters: seq<FilterEntry>,
                               localData: seq<Row>, cellData: (Column, Row) -> string): (r: Result<seq<string>>)
    ensures menuCol.None? ==> r == Ok([])
    ensures r.Err? <==> menuCol.Some? && !(0 <= menuCol.value < |cols|)
    ensures r.Ok? ==> forall i, j :: 0 <= i < j < |r.value| ==> r.value[i] != r.value[j]
    ensures r.Ok? && menuCol.Some? ==> forall v :: v in r.value <==>
      exists i :: 0 <= i < |localData|
                  && PassesAll(cols, Omit(filters, cols[menuCol.value].id), cellData, localData[i])
                  && cellData(cols[menuCol.value], localData[i]) == v && v != ""
  {
    match menuCol
    case None => Ok([])
    case Some(col) =>
      if !(0 <= col < |cols|) then Err("Cannot read properties of undefined (reading 'id')")
      else
        var column := cols[col];
        Ok(Distinct(MenuValues(column, cols, Omit(filters, column.id), cellData, localData)))
  }

  /** A filter on a column the table does not have, other than the menu's own, empties the menu. */
  lemma UnknownFilterEmptiesMenu(col: int, cols: seq<Column>, filters: seq<FilterEntry>,
                                 localData: seq<Row>, cellData: (Column, Row) -> string, e: nat)
    requires 0 <= col < |cols| && e < |filters|
    requires filters[e].columnId != cols[col].id
    requires forall k :: 0 <= k < |cols| ==> cols[k].id != filters[e].columnId
    ensures CurrentFilterValues(Some(col), cols, filters, localData, cellData) == Ok([])
  {
    var others := Omit(filters, cols[col].id);
    assert filters[e] in others;
    MenuValuesNone(cols[col], cols, others, cellData, localData);
  }

  lemma {:induction false} MenuValuesNone(column: Column, cols: seq<Column>, others: seq<FilterEntry>,
                                          cellData: (Column, Row) -> string, records: seq<Row>)
    requires forall i :: 0 <= i < |records| ==> !PassesAll(cols, others, cellData, records[i])
    ensures MenuValues(column, cols, others, cellData, records) == []
  {
    if |records| > 0 {
      MenuValuesNone(column, cols, others, cellData, records[1..]);
    }
  }

  /** The menu's own column filter plays no part in the values it offers. */
  lemma OwnFilterIgnored(col: int, cols: seq<Column>, filters: seq<FilterEntry>, e: FilterEntry,
                         localData: seq<Row>, cellData: (Column, Row) -> string)
    requires 0 <= col < |cols| && e.columnId == cols[col].id
    ensures CurrentFilterValues(Some(col), cols, filters + [e], localData, cellData)
            == CurrentFilterValues(Some(col), cols, filters, localData, cellData)
  {
    OmitDropsLast(filters, e, cols[col].id);
  }

  lemma {:induction false} OmitDropsLast(filters: seq<FilterEntry>, e: FilterEntry, id: string)
    requires e.columnId == id
    ensures Omit(filters + [e], id) == Omit(filters, id)
  {
    if |filters| == 0 {
      assert [e][1..] == [];
    } else {
      OmitDropsLast(filters[1..], e, id);
      assert (filters + [e])[1..] == filters[1..] + [e];
    }
  }

  // ---------------------------------------------------------------- handleCellsEdited

  /** The value handed to `onDataEdited`: the text, or for a Number column `parseFloat` of it. */
  datatype EditedValue = TextValue(text: string) | ParsedFloat(text: string)

  /** One call of `onDataEdited(newValue, columnId, record, [col, row])`. */
  datatype DataEdited = DataEdited(value: EditedValue, columnId: string, record: EditTarget, col: int, row: int)

  /**
   * The accumulated edits: the `Map` entries keyed by records of the table, the
   * entry under `undefined` (`NoRecord` while there is none), and the callbacks
   * made so far.
   */
  datatype EditState = EditState(edits: map<Row, Row>, pastEnd: EditTarget, calls: seq<DataEdited>)

  /** `value?.toString() ?? ""`. */
  function CellText(c: Cell): string
  {
    match c
    case Null => ""
    case Num(n) => IntToString(n)
    case Str(s) => s
  }

  /**
   * `isNaN(parseInt(s, 10))`: after leading white space and an optional sign
   * there is no decimal digit.
   */
  predicate ParseIntIsNaN(s: string)
  {
    var t := TrimStart(s);
    var u := if |t| > 0 && (t[0] == '+' || t[0] == '-') then t[1..] else t;
    !(|u| > 0 && IsDigit(u[0]))
  }

  /** lodash `get(record, key)`: `None` is `undefined`. */
  function FieldOf(r: Row, key: string): (c: Option<Cell>)
    ensures key == "id" ==> c == Some(Num(r.id))
    ensures key != "id" ==> c == Lookup(r.fields, key)
  {
    if key == "id" then Some(Num(r.id)) else Lookup(r.fields, key)
  }

  /** lodash `get(target, key)`: `undefined` has no properties. */
  function TargetField(t: EditTarget, key: string): (c: Option<Cell>)
    ensures t.NoRecord? ==> c.None?
    ensures t.Existing? ==> c == FieldOf(t.row, key)
    ensures t.Built? ==> c == Lookup(t.props, key)
  {
    match t
    case NoRecord => None
    case Existing(r) => FieldOf(r, key)
    case Built(m) => Lookup(m, key)
  }

  /**
   * lodash/fp `set(key, value, record)`: a copy of the record with the property
   * replaced. Ids are numbers, so a text or null for `id` leaves the record as it was.
   */
  function SetField(r: Row, key: string, c: Cell): (s: Row)
    ensures key != "id" ==> s.id == r.id && s.fields == r.fields[key := c]
    ensures key == "id" && c.Num? ==> s == r.(id := c.n)
    ensures key == "id" && !c.Num? ==> s == r
  {
    if key == "id" then (if c.Num? then r.(id := c.n) else r)
    else r.(fields := r.fields[key := c])
  }

  /** lodash/fp `set` on a target: on `undefined` it builds an object holding just that property. */
  function SetTarget(t: EditTarget, key: string, c: Cell): (s: EditTarget)
    ensures t.Existing? ==> s == Existing(SetField(t.row, key, c))
    ensures !t.Existing? ==> s.Built? && TargetField(s, key) == Some(c)
    ensures t.NoRecord? ==> s == Built(map[key := c])
  {
    match t
    case NoRecord => Built(map[key := c])
    case Existing(r) => Existing(SetField(r, key, c))
    case Built(m) => Built(m[key := c])
  }

  /** `edits.get(record) ?? record`. */
  function Current(edits: map<Row, Row>, r: Row): Row
  {
    if r in edits then edits[r] else r
  }

  /** `enhancedData[row]`: `None` (`undefined`) for a row outside the data. */
  function EditedRecord(data: seq<Row>, row: int): (r: Option<Row>)
    ensures r.Some? <==> 0 <= row < |data|
    ensures r.Some? ==> r.value == data[row]
  {
    if 0 <= row < |data| then Some(data[row]) else None
  }

  /** `edits.get(editedRecord) ?? editedRecord` for a record of the table or for `undefined`. */
  function CurrentTarget(st: EditState, edited: Option<Row>): EditTarget
  {
    match edited
    case Some(r) => Existing(Current(st.edits, r))
    case None => st.pastEnd
  }

  /** Whether the handler skips an edit before looking at the record: the validator or the number check refuses it. */
  predicate Refused(column: Column, edited: Option<Row>, newValue: string)
  {
    (column.validator.Some? && !column.validator.value(newValue, edited))
    || (column.kind == NumberCell && Trim(newValue) != "" && ParseIntIsNaN(newValue))
  }

  /** The record after an accepted edit: the column's own updater, or the property set to the raw value. */
  function Updated(column: Column, newValue: string, value: Cell, current: EditTarget): (r: EditTarget)
    ensures current.Existing? ==> r.Existing?
    ensures column.getUpdatedRecord.None? ==> r == SetTarget(current, column.id, value)
  {
    match column.getUpdatedRecord
    case None => SetTarget(current, column.id, value)
    case Some(f) =>
      match f(newValue, current)
      case Some(u) => Existing(u)
      case None => SetTarget(current, column.id, value)
  }

  /** Whether the edit changes something: the validator and the number check let it through and the value is new. */
  predicate Accepted(cols: seq<Column>, data: seq<Row>, st: EditState, item: EditItem)
    requires 0 <= item.col < |cols|
  {
    var column := cols[item.col];
    var edited := EditedRecord(data, item.row);
    var newValue := CellText(item.value);
    !Refused(column, edited, newValue) && TargetField(CurrentTarget(st, edited), column.id) != Some(Str(newValue))
  }

  /**
   * The handling of one edit, as the `forEach` callback does it. An accepted edit
   * makes one callback; its entry goes under the record it edits, or under
   * `undefined` for a row past the data, which leaves the other entries alone.
   */
  function EditStep(cols: seq<Column>, data: seq<Row>, st: EditState, item: EditItem): (r: EditState)
    requires 0 <= item.col < |cols|
    ensures !Accepted(cols, data, st, item) ==> r == st
    ensures Accepted(cols, data, st, item) ==> |r.calls| == |st.calls| + 1 && r.calls[..|st.calls|] == st.calls
    ensures Accepted(cols, data, st, item) ==> r.calls[|st.calls|].record == CurrentTarget(st, EditedRecord(data, item.row))
    ensures 0 <= item.row < |data| ==> r.pastEnd == st.pastEnd && r.edits.Keys <= st.edits.Keys + {data[item.row]}
    ensures !(0 <= item.row < |data|) ==> r.edits == st.edits
  {
    var column := cols[item.col];
    var edited := EditedRecord(data, item.row);
    var newValue := CellText(item.value);
    if !Accepted(cols, data, st, item) then st
    else
      var current := CurrentTarget(st, edited);
      var formatted := if column.kind == NumberCell then ParsedFloat(newValue) else TextValue(newValue);
      var calls := st.calls + [DataEdited(formatted, column.id, current, item.col, item.row)];
      assert calls[..|st.calls|] == st.calls;
      match edited
      case Some(r) => EditState(st.edits[r := Updated(column, newValue, item.value, current).row], st.pastEnd, calls)
      case None => EditState(st.edits, Updated(column, newValue, item.value, current), calls)
  }

  /** Every edit names a column of the table (a column past them is `undefined`, and reading its properties throws). */
  predicate ColumnsInTable(cols: seq<Column>, items: seq<EditItem>)
  {
    forall i :: 0 <= i < |items| ==> 0 <= items[i].col < |cols|
  }

  /**
   * The edits handled one after another, from no edits and no calls: at most one
   * callback per edit, and entries only under records of the table (the one under
   * `undefined` aside).
   */
  function FoldEdits(cols: seq<Column>, data: seq<Row>, items: seq<EditItem>): (r: EditState)
    requires ColumnsInTable(cols, items)
    ensures |r.calls| <= |items|
    ensures forall k :: k in r.edits ==> k in data
  {
    if |items| == 0 then EditState(map[], NoRecord, [])
    else EditStep(cols, data, FoldEdits(cols, data, items[..|items| - 1]), items[|items| - 1])
  }

  /** `prev.map(record => edits.get(record) ?? record)`. */
  function ApplyEdits(edits: map<Row, Row>, prev: seq<Row>): (r: seq<Row>)
    ensures |r| == |prev|
    ensures forall i :: 0 <= i < |prev| && prev[i] in edits ==> r[i] == edits[prev[i]]
    ensures forall i :: 0 <= i < |prev| && prev[i] !in edits ==> r[i] == prev[i]
  {
    seq(|prev|, i requires 0 <= i < |prev| => Current(edits, prev[i]))
  }

  /**
   * `handleCellsEdited(items)`: without `onDataEdited` the table is read-only and
   * nothing happens; otherwise each edit is handled in turn, and the local data
   * then has each edited record replaced by its accumulated copy.
   */
  method CellsEdited(hasCallback: bool, items: seq<EditItem>, cols: seq<Column>, data: seq<Row>, localData: seq<Row>)
    returns (calls: seq<DataEdited>, newLocal: seq<Row>)
    requires ColumnsInTable(cols, items)
    ensures !hasCallback ==> calls == [] && newLocal == localData
    ensures hasCallback ==> calls == FoldEdits(cols, data, items).calls
    ensures hasCallback ==> newLocal == ApplyEdits(FoldEdits(cols, data, items).edits, localData)
  {
    if !hasCallback {
      return [], localData;
    }
    var st := EditState(map[], NoRecord, []);
    var i := 0;
    while i < |items|
      invariant 0 <= i <= |items|
      invariant st == FoldEdits(cols, data, items[..i])
    {
      assert items[..i + 1][..i] == items[..i];
      st := EditStep(cols, data, st, items[i]);
      i := i + 1;
    }
    assert items[..|items|] == items;
    calls := st.calls;
    newLocal := ApplyEdits(st.edits, localData);
  }

  /** An edit is dropped, leaving everything as it was, exactly when refused or when it changes nothing. */
  lemma EditDropped(cols: seq<Column>, data: seq<Row>, st: EditState, item: EditItem)
    requires 0 <= item.col < |cols|
    ensures var column := cols[item.col];
      var newValue := CellText(item.value);
      var edited := EditedRecord(data, item.row);
      Refused(column, edited, newValue)
      || TargetField(CurrentTarget(st, edited), column.id) == Some(Str(newValue))
      <==> EditStep(cols, data, st, item) == st
  {
    var next := EditStep(cols, data, st, item);
    if Accepted(cols, data, st, item) {
      assert |next.calls| == |st.calls| + 1;
    }
  }

  /**
   * An accepted edit makes exactly one callback, with the record as edited so far,
   * and stores the updated copy under the original record (or under `undefined`
   * for a row past the data), touching no other entry.
   */
  lemma EditAccepted(cols: seq<Column>, data: seq<Row>, st: EditState, item: EditItem)
    requires 0 <= item.col < |cols|
    requires EditStep(cols, data, st, item) != st
    ensures var column := cols[item.col];
      var edited := EditedRecord(data, item.row);
      var newValue := CellText(item.value);
      var current := CurrentTarget(st, edited);
      var next := EditStep(cols, data, st, item);
      next.calls == st.calls + [DataEdited(if column.kind == NumberCell then ParsedFloat(newValue) else TextValue(newValue),
                                           column.id, current, item.col, item.row)]
      && (edited.Some? ==> next.edits == st.edits[edited.value := Updated(column, newValue, item.value, current).row]
                           && next.pastEnd == st.pastEnd)
      && (edited.None? ==> next.edits == st.edits && next.pastEnd == Updated(column, newValue, item.value, current))
  {
  }

  /** Edits of rows past the data make their callbacks but leave the local data as it was. */
  lemma {:induction false} PastEndKeepsData(cols: seq<Column>, data: seq<Row>, items: seq<EditItem>, localData: seq<Row>)
    requires ColumnsInTable(cols, items)
    requires forall i :: 0 <= i < |items| ==> !(0 <= items[i].row < |data|)
    ensures FoldEdits(cols, data, items).edits == map[]
    ensures ApplyEdits(FoldEdits(cols, data, items).edits, localData) == localData
  {
    if |items| > 0 {
      PastEndKeepsData(cols, data, items[..|items| - 1], localData);
    }
  }

  /**
   * The first accepted edit past the data hands `undefined` to the callback; with
   * no updater, the entry under `undefined` is then an object holding just that property.
   */
  lemma PastEndFirstEdit(cols: seq<Column>, data: seq<Row>, item: EditItem)
    requires 0 <= item.col < |cols| && !(0 <= item.row < |data|)
    requires cols[item.col].getUpdatedRecord.None?
    requires EditStep(cols, data, EditState(map[], NoRecord, []), item) != EditState(map[], NoRecord, [])
    ensures var next := EditStep(cols, data, EditState(map[], NoRecord, []), item);
      |next.calls| == 1 && next.calls[0].record == NoRecord
      && next.pastEnd == Built(map[cols[item.col].id := item.value]) && next.edits == map[]
  {
  }

  /** A column with no validator, no updater, of text kind, keyed by an ordinary property. */
  predicate PlainTextColumn(c: Column)
  {
    c.validator.None? && c.getUpdatedRecord.None? && c.kind == TextCell && c.id != "id"
  }

  /** Two edits to different properties of one record accumulate on the same copy. */
  lemma EditsAccumulate(cols: seq<Column>, data: seq<Row>, a: EditItem, b: EditItem)
    requires 0 <= a.col < |cols| && 0 <= b.col < |cols| && 0 <= a.row < |data| && b.row == a.row
    requires PlainTextColumn(cols[a.col]) && PlainTextColumn(cols[b.col]) && cols[a.col].id != cols[b.col].id
    requires a.value.Str? && b.value.Str?
    requires Lookup(data[a.row].fields, cols[a.col].id) != Some(a.value)
    requires Lookup(data[a.row].fields, cols[b.col].id) != Some(b.value)
    ensures var st := FoldEdits(cols, data, [a, b]);
      var rec := data[a.row];
      rec in st.edits && |st.calls| == 2
      && st.edits[rec] == rec.(fields := rec.fields[cols[a.col].id := a.value][cols[b.col].id := b.value])
  {
    var rec := data[a.row];
    assert [a, b][..1] == [a];
    assert [a][..0] == [];
    assert FoldEdits(cols, data, []) == EditState(map[], NoRecord, []);
    var st1 := FoldEdits(cols, data, [a]);
    assert st1 == EditStep(cols, data, FoldEdits(cols, data, []), a);
    assert st1.edits == map[rec := rec.(fields := rec.fields[cols[a.col].id := a.value])];
    var cur := st1.edits[rec];
    assert Lookup(cur.fields, cols[b.col].id) == Lookup(rec.fields, cols[b.col].id);
  }

  /** `parseInt` reads a leading number, so "12abc" passes a Number column's check while "abc" does not. */
  lemma NumberCheckExamples()
    ensures !ParseIntIsNaN("12abc") && !ParseIntIsNaN(" -3") && ParseIntIsNaN("abc") && ParseIntIsNaN("-")
  {
    assert !IsWhite('1') && !IsWhite('a') && !IsWhite('-') && IsWhite(' ');
    assert TrimStart("12abc") == "12abc";
    assert " -3"[1..] == "-3";
    assert TrimStart(" -3") == "-3";
    assert TrimStart("abc") == "abc";
    assert TrimStart("-") == "-";
  }
}
