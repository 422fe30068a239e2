/** The records and column definitions shared by the data-table hooks. */
module TableTypes {
  import opened Wrappers

  /** A field value of a record: JavaScript `null`, a number or a string. A key the record lacks is `undefined`. */
  datatype Cell = Null | Num(n: int) | Str(s: string)

  /** A table record: every record has a numeric `id`; its other properties are `fields`. */
  datatype Row = Row(id: int, fields: map<string, Cell>)

  /**
   * The record an edit handler works on: a record of the table, `undefined` (the
   * row past the data), or the plain object lodash/fp `set` builds from `undefined`,
   * which has only the properties set on it.
   */
  datatype EditTarget = NoRecord | Existing(row: Row) | Built(props: map<string, Cell>)

  /** The grid's cell kinds that the table logic tells apart. */
  datatype CellKind = TextCell | NumberCell | CustomCell | OtherCell

  datatype SortDirection = Asc | Desc

  /**
   * A column definition. The optional callbacks are supplied by the table's user:
   * `getValue` returns `Null` for a nullish value; `validator` and `getIsReadonly`
   * receive the record at the target row (or `undefined`), and a falsy answer of
   * `getIsReadonly` means editable; `getUpdatedRecord` receives the record as
   * edited so far and returns `None` for a nullish answer.
   */
  datatype Column = Column(
    id: string,
    kind: CellKind,
    customCellType: Option<string>,
    inactive: bool,
    icon: Option<string>,
    getValue: Option<Row -> Cell>,
    customSorter: Option<(Row, Row, SortDirection) -> int>,
    validator: Option<(string, Option<Row>) -> bool>,
    getIsReadonly: Option<Option<Row> -> bool>,
    getUpdatedRecord: Option<(string, EditTarget) -> Option<Row>>)

  /** lodash `get(record, key, default)`: the property's value, or `default` when it is `undefined`. */
  function Get(r: Row, key: string, default: Cell): (c: Cell)
    ensures key == "id" ==> c == Num(r.id)
    ensures key != "id" && key in r.fields ==> c == r.fields[key]
    ensures key != "id" && key !in r.fields ==> c == default
  {
    if key == "id" then Num(r.id) else if key in r.fields then r.fields[key] else default
  }

  /** `columns.findIndex(c => c.id === id)`, as an option: the first column with that id. */
  function FindColumn(cols: seq<Column>, id: string): (r: Option<nat>)
    ensures r.Some? ==> r.value < |cols| && cols[r.value].id == id
    ensures r.Some? ==> forall j :: 0 <= j < r.value ==> cols[j].id != id
    ensures r.None? ==> forall j :: 0 <= j < |cols| ==> cols[j].id != id
  {
    if |cols| == 0 then None
    else if cols[0].id == id then Some(0)
    else match FindColumn(cols[1..], id)
      case None => None
      case Some(k) => Some(k + 1)
  }

  /** `rows.find(r => r.id === id)`: the first record with that id. */
  function FindRow(rows: seq<Row>, id: int): (r: Option<Row>)
    ensures r.Some? ==> r.value.id == id && r.value in rows
    ensures r.Some? ==> exists k :: 0 <= k < |rows| && rows[k] == r.value && forall j :: 0 <= j < k ==> rows[j].id != id
    ensures r.None? <==> forall j :: 0 <= j < |rows| ==> rows[j].id != id
  {
    if |rows| == 0 then None
    else if rows[0].id == id then Some(rows[0])
    else
      var t := FindRow(rows[1..], id);
      assert forall j :: 1 <= j < |rows| ==> rows[j] == rows[1..][j - 1];
      t
  }

  /** `rows.map(({ id }) => id)`. */
  function Ids(rows: seq<Row>): (r: seq<int>)
    ensures |r| == |rows| && forall i :: 0 <= i < |rows| ==> r[i] == rows[i].id
  {
    if |rows| == 0 then [] else [rows[0].id] + Ids(rows[1..])
  }

  /** No two records share an id. */
  predicate DistinctIds(rows: seq<Row>)
  {
    forall i, j :: 0 <= i < |rows| && 0 <= j < |rows| && rows[i].id == rows[j].id ==> i == j
  }
}
