/**
 * The column-sorting hook of the data table: the header click that toggles the
 * sort, the header icons, the comparators for number, date-picker and text
 * columns, and the order remembered while the table is being edited.
 */
module SortByColumn {
  import opened Wrappers
  import opened TableTypes
  import opened JsText
  import ArraySort

  /** The current sort: which column and which way. */
  datatype SortOptions = SortOptions(column: string, direction: SortDirection)

  function Flip(d: SortDirection): (r: SortDirection)
    ensures r != d
  {
    if d == Asc then Desc else Asc
  }

  /** The sort after a click on the header of column `id`. */
  function Toggle(s: Option<SortOptions>, id: string): (r: SortOptions)
    ensures r.column == id
    ensures s.Some? && s.value.column == id ==> r.direction == Flip(s.value.direction)
    ensures !(s.Some? && s.value.column == id) ==> r.direction == Asc
  {
    if s.Some? && s.value.column == id then s.value.(direction := Flip(s.value.direction))
    else SortOptions(id, Asc)
  }

  /** Two clicks on the same header from any state come back to where the first click led, reversed. */
  lemma ToggleTwice(s: Option<SortOptions>, id: string)
    ensures Toggle(Some(Toggle(s, id)), id).direction == Flip(Toggle(s, id).direction)
    ensures Toggle(Some(Toggle(Some(Toggle(s, id)), id)), id) == Toggle(s, id)
  {
  }

  /** The header icon for a direction. */
  function IconFor(d: SortDirection): string
  {
    if d == Asc then "chevronDown" else "chevronUp"
  }

  /** The columns that are not inactive, in order. */
  function Active(cols: seq<Column>): (r: seq<Column>)
    ensures |r| <= |cols|
    ensures forall i :: 0 <= i < |r| ==> !r[i].inactive
  {
    if |cols| == 0 then []
    else if cols[0].inactive then Active(cols[1..])
    else [cols[0]] + Active(cols[1..])
  }

  /** Inactive columns are dropped and the sorted column carries its direction's icon. */
  function EnhancedColumns(cols: seq<Column>, sorting: Option<SortOptions>): (r: seq<Column>)
    ensures |r| == |Active(cols)|
    ensures forall i :: 0 <= i < |r| ==>
      var c := Active(cols)[i];
      r[i] == if sorting.Some? && c.id == sorting.value.column then c.(icon := Some(IconFor(sorting.value.direction))) else c
  {
    if |cols| == 0 then []
    else
      var rest := EnhancedColumns(cols[1..], sorting);
      if cols[0].inactive then rest
      else
        var c := cols[0];
        var head := if sorting.Some? && c.id == sorting.value.column then c.(icon := Some(IconFor(sorting.value.direction))) else c;
        [head] + rest
  }

  /** Only the sorted column changes: every other column keeps its icon. */
  lemma EnhancedColumnsOnlySortedGetsIcon(cols: seq<Column>, sorting: Option<SortOptions>, i: nat)
    requires i < |EnhancedColumns(cols, sorting)|
    ensures EnhancedColumns(cols, sorting)[i].id == Active(cols)[i].id
    ensures EnhancedColumns(cols, sorting)[i].icon != Active(cols)[i].icon ==>
      sorting.Some? && Active(cols)[i].id == sorting.value.column
    ensures sorting.Some? && Active(cols)[i].id == sorting.value.column ==>
      EnhancedColumns(cols, sorting)[i].icon == Some(IconFor(sorting.value.direction))
  {
  }

  // ---------------------------------------------------------------- comparators

  /** The value a number column sorts by: the column's `getValue`, else the record's field, else null. */
  function NumberValue(col: Column, r: Row): Cell
  {
    if col.getValue.Some? && col.getValue.value(r) != Null then col.getValue.value(r) else Get(r, col.id, Null)
  }

  /**
   * The number `data1 - data2` reads from a non-null value: a number is itself and
   * a text is `Number(text)`; `None` is NaN.
   */
  function NumberKey(c: Cell): Option<int>
  {
    match c
    case Null => None
    case Num(n) => Some(n)
    case Str(t) => NumberOf(t)
  }

  /**
   * The number comparator: nulls after everything else in both directions; other
   * values by the difference of their numbers, a text being converted; a NaN
   * difference (a text that is not a number) sorts as equal.
   */
  function NumberCompare(col: Column, dir: SortDirection, a: Row, b: Row): (c: int)
    ensures NumberValue(col, a).Null? ==> c >= 0 && (c == 0 <==> NumberValue(col, b).Null?)
    ensures !NumberValue(col, a).Null? && NumberValue(col, b).Null? ==> c < 0
    ensures var v1 := NumberValue(col, a); var v2 := NumberValue(col, b);
      !v1.Null? && !v2.Null? && (NumberKey(v1).None? || NumberKey(v2).None?) ==> c == 0
    ensures var k1 := NumberKey(NumberValue(col, a)); var k2 := NumberKey(NumberValue(col, b));
      !NumberValue(col, a).Null? && !NumberValue(col, b).Null? && k1.Some? && k2.Some? ==>
        (c == 0 <==> k1.value == k2.value)
        && (c < 0 <==> if dir == Asc then k1.value < k2.value else k2.value < k1.value)
  {
    var v1 := NumberValue(col, a);
    var v2 := NumberValue(col, b);
    if v1 == Null && v2 == Null then 0
    else if v1 == Null then 1
    else if v2 == Null then -1
    else
      var k1 := NumberKey(v1);
      var k2 := NumberKey(v2);
      if k1.Some? && k2.Some? then (if dir == Asc then k1.value - k2.value else k2.value - k1.value)
      else 0
  }

  /** The comparator a number column hands to `sort`. */
  function NumberCmp(col: Column, dir: SortDirection): (Row, Row) -> int
  {
    (a, b) => NumberCompare(col, dir, a, b)
  }

  /** A date-picker field becomes a date unless it is falsy (null, "", 0) or "NA". */
  function DateKey(c: Cell): Option<Cell>
  {
    if c == Null || c == Str("") || c == Num(0) || c == Str("NA") then None else Some(c)
  }

  /** Missing dates after everything else in both directions; `compareDates` stands for date-fns `compareAsc`. */
  function DateCompare(col: Column, compareDates: (Cell, Cell) -> int, dir: SortDirection, a: Row, b: Row): (c: int)
    ensures var d1 := DateKey(Get(a, col.id, Null)); var d2 := DateKey(Get(b, col.id, Null));
      (d1.None? ==> c >= 0 && (c == 0 <==> d2.None?))
      && (d1.Some? && d2.None? ==> c < 0)
      && (d1.Some? && d2.Some? ==>
            c == if dir == Asc then compareDates(d1.value, d2.value) else compareDates(d2.value, d1.value))
  {
    var d1 := DateKey(Get(a, col.id, Null));
    var d2 := DateKey(Get(b, col.id, Null));
    if d1.None? && d2.None? then 0
    else if d1.None? then 1
    else if d2.None? then -1
    else if dir == Asc then compareDates(d1.value, d2.value)
    else compareDates(d2.value, d1.value)
  }

  /** The comparator a date-picker column hands to `sort`. */
  function DateCmp(col: Column, compareDates: (Cell, Cell) -> int, dir: SortDirection): (Row, Row) -> int
  {
    (a, b) => DateCompare(col, compareDates, dir, a, b)
  }

  /** The value a text column sorts by: the column's `getValue`, else the record's field, else "". */
  function TextValue(col: Column, r: Row): Cell
  {
    if col.getValue.Some? && col.getValue.value(r) != Null then col.getValue.value(r) else Get(r, col.id, Str(""))
  }

  /** Empty strings last, non-strings equal to each other, strings by `localeCompare`. */
  function TextCompare(col: Column, localeCompare: (string, string) -> int, dir: SortDirection, a: Row, b: Row): (c: int)
    ensures var v1 := TextValue(col, a); var v2 := TextValue(col, b);
      (v1 == Str("") ==> c >= 0 && (c == 0 <==> v2 == Str("")))
      && (v1 != Str("") && v2 == Str("") ==> c < 0)
      && (v1 != Str("") && v2 != Str("") && (!v1.Str? || !v2.Str?) ==> c == 0)
      && (v1 != Str("") && v2 != Str("") && v1.Str? && v2.Str? ==>
            c == if dir == Asc then localeCompare(v1.s, v2.s) else localeCompare(v2.s, v1.s))
  {
    var v1 := TextValue(col, a);
    var v2 := TextValue(col, b);
    if v1 == Str("") && v2 == Str("") then 0
    else if v1 == Str("") then 1
    else if v2 == Str("") then -1
    else if !v1.Str? || !v2.Str? then 0
    else if dir == Asc then localeCompare(v1.s, v2.s)
    else localeCompare(v2.s, v1.s)
  }

  /** The comparator a text column hands to `sort`. */
  function TextCmp(col: Column, localeCompare: (string, string) -> int, dir: SortDirection): (Row, Row) -> int
  {
    (a, b) => TextCompare(col, localeCompare, dir, a, b)
  }

  // ---------------------------------------------------------------- sorted data

  /** The records whose ids appear in `order`, in that order; ids no longer in the data are dropped. */
  function FollowOrder(order: seq<int>, data: seq<Row>): (r: seq<Row>)
    ensures |r| <= |order|
    ensures forall i :: 0 <= i < |r| ==> r[i] in data
  {
    if |order| == 0 then []
    else
      var rest := FollowOrder(order[1..], data);
      match FindRow(data, order[0])
      case None => rest
      case Some(row) => [row] + rest
  }

  /** The ids of `order` that some record in `data` has, in order. */
  function PresentIds(order: seq<int>, data: seq<Row>): seq<int>
  {
    if |order| == 0 then []
    else if FindRow(data, order[0]).Some? then [order[0]] + PresentIds(order[1..], data)
    else PresentIds(order[1..], data)
  }

  /** The remembered order is followed: the ids come out in the remembered order, minus the missing ones, each with its first record. */
  lemma {:induction false} FollowOrderIds(order: seq<int>, data: seq<Row>)
    ensures Ids(FollowOrder(order, data)) == PresentIds(order, data)
    ensures forall i :: 0 <= i < |FollowOrder(order, data)| ==>
      FindRow(data, FollowOrder(order, data)[i].id) == Some(FollowOrder(order, data)[i])
  {
    if |order| > 0 {
      FollowOrderIds(order[1..], data);
      var rest := FollowOrder(order[1..], data);
      match FindRow(data, order[0])
      case None =>
      case Some(row) =>
        var r := [row] + rest;
        assert Ids(r) == [row.id] + Ids(rest) by {
          assert r[1..] == rest;
        }
        forall i | 0 <= i < |r| ensures FindRow(data, r[i].id) == Some(r[i]) {
          if i > 0 { assert r[i] == rest[i - 1]; }
        }
    }
  }

  /** With distinct ids, replaying the ids of a permutation of the data gives that permutation back. */
  lemma {:induction false} FollowOrderReplays(out: seq<Row>, data: seq<Row>)
    requires DistinctIds(data)
    requires forall i :: 0 <= i < |out| ==> out[i] in data
    ensures FollowOrder(Ids(out), data) == out
  {
    if |out| > 0 {
      var k :| 0 <= k < |data| && data[k] == out[0];
      var f := FindRow(data, out[0].id);
      var m :| 0 <= m < |data| && data[m] == f.value && forall j :: 0 <= j < m ==> data[j].id != out[0].id;
      assert Ids(out)[1..] == Ids(out[1..]);
      FollowOrderReplays(out[1..], data);
      assert [out[0]] + out[1..] == out;
    }
  }

  /** The output of the sorting hook for the given state. */
  function SortedData(
    cols: seq<Column>, data: seq<Row>, editing: bool,
    sorting: Option<SortOptions>, prevSortedOrder: Option<seq<int>>, hasSortChanged: bool,
    compareDates: (Cell, Cell) -> int, localeCompare: (string, string) -> int): (r: seq<Row>)
    ensures sorting.None? || FindColumn(cols, sorting.value.column).None? ==> r == data
    ensures forall i :: 0 <= i < |r| ==> r[i] in data
    ensures !(editing && prevSortedOrder.Some? && !hasSortChanged) ==> |r| == |data|
  {
    var found := if sorting.Some? then FindColumn(cols, sorting.value.column) else None;
    if sorting.None? || found.None? then data
    else if editing && prevSortedOrder.Some? && !hasSortChanged then FollowOrder(prevSortedOrder.value, data)
    else
      var col := cols[found.value];
      var dir := sorting.value.direction;
      var cmp :=
        if col.customSorter.Some? then (a, b) => col.customSorter.value(a, b, dir)
        else if col.kind == NumberCell then NumberCmp(col, dir)
        else if col.customCellType == Some("wave-datepicker") then DateCmp(col, compareDates, dir)
        else TextCmp(col, localeCompare, dir);
      SortedRowsFromData(data, cmp);
      ArraySort.Sort(data, cmp)
  }

  lemma SortedRowsFromData(data: seq<Row>, cmp: (Row, Row) -> int)
    ensures forall i :: 0 <= i < |ArraySort.Sort(data, cmp)| ==> ArraySort.Sort(data, cmp)[i] in data
  {
    var out := ArraySort.Sort(data, cmp);
    ArraySort.SortPermutes(data, cmp);
    forall i | 0 <= i < |out| ensures out[i] in data {
      assert out[i] in multiset(out);
    }
  }

  /** Which comparator the sort uses: the column's own sorter, then number, date-picker, text. */
  lemma SortedDataComparator(
    cols: seq<Column>, data: seq<Row>, editing: bool,
    so: SortOptions, prev: Option<seq<int>>, changed: bool,
    compareDates: (Cell, Cell) -> int, localeCompare: (string, string) -> int, k: nat)
    requires FindColumn(cols, so.column) == Some(k)
    requires !(editing && prev.Some? && !changed)
    ensures var col := cols[k];
      var out := SortedData(cols, data, editing, Some(so), prev, changed, compareDates, localeCompare);
      (col.customSorter.None? && col.kind == NumberCell ==> out == ArraySort.Sort(data, NumberCmp(col, so.direction)))
      && (col.customSorter.None? && col.kind != NumberCell && col.customCellType == Some("wave-datepicker") ==>
            out == ArraySort.Sort(data, DateCmp(col, compareDates, so.direction)))
      && (col.customSorter.None? && col.kind != NumberCell && col.customCellType != Some("wave-datepicker") ==>
            out == ArraySort.Sort(data, TextCmp(col, localeCompare, so.direction)))
  {
  }

  /** With no sort, or a sort on a column that is not there, the data comes back as it is. */
  lemma SortedDataUnsorted(
    cols: seq<Column>, data: seq<Row>, editing: bool,
    sorting: Option<SortOptions>, prev: Option<seq<int>>, changed: bool,
    compareDates: (Cell, Cell) -> int, localeCompare: (string, string) -> int)
    requires sorting.None? || forall j :: 0 <= j < |cols| ==> cols[j].id != sorting.value.column
    ensures SortedData(cols, data, editing, sorting, prev, changed, compareDates, localeCompare) == data
  {
  }

  /** Every sorting branch reorders a copy: the output holds exactly the input records. */
  lemma SortedDataPermutes(
    cols: seq<Column>, data: seq<Row>, editing: bool,
    sorting: Option<SortOptions>, prev: Option<seq<int>>, changed: bool,
    compareDates: (Cell, Cell) -> int, localeCompare: (string, string) -> int)
    requires !(editing && prev.Some? && !changed)
    ensures multiset(SortedData(cols, data, editing, sorting, prev, changed, compareDates, localeCompare)) == multiset(data)
  {
    var found := if sorting.Some? then FindColumn(cols, sorting.value.column) else None;
    if sorting.Some? && found.Some? {
      var col := cols[found.value];
      var dir := sorting.value.direction;
      var out := SortedData(cols, data, editing, sorting, prev, changed, compareDates, localeCompare);
      if col.customSorter.Some? {
        var cmp := (a, b) => col.customSorter.value(a, b, dir);
        assert out == ArraySort.Sort(data, cmp);
        ArraySort.SortPermutes(data, cmp);
      } else if col.kind == NumberCell {
        assert out == ArraySort.Sort(data, NumberCmp(col, dir));
        ArraySort.SortPermutes(data, NumberCmp(col, dir));
      } else if col.customCellType == Some("wave-datepicker") {
        assert out == ArraySort.Sort(data, DateCmp(col, compareDates, dir));
        ArraySort.SortPermutes(data, DateCmp(col, compareDates, dir));
      } else {
        assert out == ArraySort.Sort(data, TextCmp(col, localeCompare, dir));
        ArraySort.SortPermutes(data, TextCmp(col, localeCompare, dir));
      }
    }
  }

  /** While editing with a remembered order and no new click, the output follows the remembered ids. */
  lemma SortedDataFrozen(
    cols: seq<Column>, data: seq<Row>,
    sorting: Option<SortOptions>, order: seq<int>,
    compareDates: (Cell, Cell) -> int, localeCompare: (string, string) -> int)
    requires sorting.Some? && FindColumn(cols, sorting.value.column).Some?
    ensures var out := SortedData(cols, data, true, sorting, Some(order), false, compareDates, localeCompare);
      Ids(out) == PresentIds(order, data) && forall i :: 0 <= i < |out| ==> out[i] in data
  {
    FollowOrderIds(order, data);
  }

  /** A value the number comparator orders: null, or one whose number is not NaN. */
  predicate NumericValue(col: Column, r: Row)
  {
    NumberValue(col, r).Null? || NumberKey(NumberValue(col, r)).Some?
  }

  lemma NumberCmpLaws(col: Column, dir: SortDirection)
    ensures ArraySort.KeepsLast(NumberCmp(col, dir), (r: Row) => NumberValue(col, r).Null?)
    ensures ArraySort.Total(NumberCmp(col, dir), (r: Row) => NumericValue(col, r))
    ensures ArraySort.Transitive(NumberCmp(col, dir), (r: Row) => NumericValue(col, r))
  {
  }

  /**
   * Sorting a number column puts the nulls last in both directions, and, when no
   * value is NaN, the numbers (texts converted) before them in ascending (`Asc`)
   * or descending (`Desc`) order.
   */
  lemma NumberSortOrder(col: Column, dir: SortDirection, data: seq<Row>)
    ensures var out := ArraySort.Sort(data, NumberCmp(col, dir));
      forall i, j :: 0 <= i < j < |out| && NumberValue(col, out[i]).Null? ==> NumberValue(col, out[j]).Null?
    ensures (forall i :: 0 <= i < |data| ==> NumericValue(col, data[i])) ==>
      var out := ArraySort.Sort(data, NumberCmp(col, dir));
      forall i, j :: 0 <= i < j < |out| && !NumberValue(col, out[i]).Null? && !NumberValue(col, out[j]).Null? ==>
        var k1 := NumberKey(NumberValue(col, out[i])); var k2 := NumberKey(NumberValue(col, out[j]));
        k1.Some? && k2.Some? && if dir == Asc then k1.value <= k2.value else k1.value >= k2.value
  {
    var cmp := NumberCmp(col, dir);
    NumberCmpLaws(col, dir);
    ArraySort.SortPartitioned(data, cmp, (r: Row) => NumberValue(col, r).Null?);
    if forall i :: 0 <= i < |data| ==> NumericValue(col, data[i]) {
      ArraySort.SortSorted(data, cmp, (r: Row) => NumericValue(col, r));
      ArraySort.SortAll(data, cmp, (r: Row) => NumericValue(col, r));
      var out := ArraySort.Sort(data, cmp);
      forall i, j | 0 <= i < j < |out| && !NumberValue(col, out[i]).Null? && !NumberValue(col, out[j]).Null?
        ensures var k1 := NumberKey(NumberValue(col, out[i])); var k2 := NumberKey(NumberValue(col, out[j]));
          k1.Some? && k2.Some? && if dir == Asc then k1.value <= k2.value else k1.value >= k2.value
      {
        assert NumericValue(col, out[i]) && NumericValue(col, out[j]);
        assert cmp(out[i], out[j]) <= 0;
      }
    }
  }

  lemma DateCmpKeepsLast(col: Column, compareDates: (Cell, Cell) -> int, dir: SortDirection)
    ensures ArraySort.KeepsLast(DateCmp(col, compareDates, dir), (r: Row) => DateKey(Get(r, col.id, Null)).None?)
  {
  }

  /** Sorting a date-picker column puts the records with no date (null, empty, "NA") last in both directions. */
  lemma DateSortMissingLast(col: Column, compareDates: (Cell, Cell) -> int, dir: SortDirection, data: seq<Row>)
    ensures var out := ArraySort.Sort(data, DateCmp(col, compareDates, dir));
      forall i, j :: 0 <= i < j < |out| && DateKey(Get(out[i], col.id, Null)).None? ==> DateKey(Get(out[j], col.id, Null)).None?
  {
    DateCmpKeepsLast(col, compareDates, dir);
    ArraySort.SortPartitioned(data, DateCmp(col, compareDates, dir), (r: Row) => DateKey(Get(r, col.id, Null)).None?);
  }

  lemma TextCmpKeepsLast(col: Column, localeCompare: (string, string) -> int, dir: SortDirection)
    ensures ArraySort.KeepsLast(TextCmp(col, localeCompare, dir), (r: Row) => TextValue(col, r) == Str(""))
  {
  }

  /** Sorting a text column puts the empty strings last in both directions, whatever else the values are. */
  lemma TextSortEmptyLast(col: Column, localeCompare: (string, string) -> int, dir: SortDirection, data: seq<Row>)
    ensures var out := ArraySort.Sort(data, TextCmp(col, localeCompare, dir));
      forall i, j :: 0 <= i < j < |out| && TextValue(col, out[i]) == Str("") ==> TextValue(col, out[j]) == Str("")
  {
    TextCmpKeepsLast(col, localeCompare, dir);
    ArraySort.SortPartitioned(data, TextCmp(col, localeCompare, dir), (r: Row) => TextValue(col, r) == Str(""));
  }

  /** A non-empty string: the values ordered by `localeCompare`. */
  predicate NonEmptyText(col: Column, r: Row)
  {
    TextValue(col, r).Str? && TextValue(col, r) != Str("")
  }

  /** Over strings, empty or not, the text comparator is total and transitive when `localeCompare` is. */
  lemma TextCmpLaws(col: Column, localeCompare: (string, string) -> int, dir: SortDirection)
    requires forall x, y :: localeCompare(x, y) <= 0 || localeCompare(y, x) <= 0
    requires forall x, y, z :: localeCompare(x, y) <= 0 && localeCompare(y, z) <= 0 ==> localeCompare(x, z) <= 0
    ensures ArraySort.Total(TextCmp(col, localeCompare, dir), (r: Row) => TextValue(col, r).Str?)
    ensures ArraySort.Transitive(TextCmp(col, localeCompare, dir), (r: Row) => TextValue(col, r).Str?)
  {
  }

  /**
   * Under a total, transitive `localeCompare`, when every value is a string, the
   * empty strings come last and the non-empty ones before them in the chosen direction.
   */
  lemma TextSortOrder(col: Column, localeCompare: (string, string) -> int, dir: SortDirection, data: seq<Row>)
    requires forall x, y :: localeCompare(x, y) <= 0 || localeCompare(y, x) <= 0
    requires forall x, y, z :: localeCompare(x, y) <= 0 && localeCompare(y, z) <= 0 ==> localeCompare(x, z) <= 0
    requires forall i :: 0 <= i < |data| ==> TextValue(col, data[i]).Str?
    ensures var out := ArraySort.Sort(data, TextCmp(col, localeCompare, dir));
      forall i, j :: 0 <= i < j < |out| && NonEmptyText(col, out[i]) && NonEmptyText(col, out[j]) ==>
        if dir == Asc then localeCompare(TextValue(col, out[i]).s, TextValue(col, out[j]).s) <= 0
        else localeCompare(TextValue(col, out[j]).s, TextValue(col, out[i]).s) <= 0
  {
    var cmp := TextCmp(col, localeCompare, dir);
    TextCmpLaws(col, localeCompare, dir);
    ArraySort.SortSorted(data, cmp, (r: Row) => TextValue(col, r).Str?);
    var out := ArraySort.Sort(data, cmp);
    forall i, j | 0 <= i < j < |out| && NonEmptyText(col, out[i]) && NonEmptyText(col, out[j])
      ensures if dir == Asc then localeCompare(TextValue(col, out[i]).s, TextValue(col, out[j]).s) <= 0
              else localeCompare(TextValue(col, out[j]).s, TextValue(col, out[i]).s) <= 0
    {
      assert cmp(out[i], out[j]) <= 0;
    }
  }

  // ---------------------------------------------------------------- the hook's state

  /**
   * The hook's state: the sort (a React state), the two refs, and the memo of
   * `sortingEnhancedData`. React compares the memo's dependencies
   * `[columns, data, editing, sorting]` by identity: `sortingStamp` names the
   * current `sorting` object (every `setSorting` of a new value makes a new one),
   * and whether `columns` and `data` are the objects of the last computation is
   * told by the caller, who may say so only when they are equal to them.
   */
  class ColumnSorter {
    var sorting: Option<SortOptions>
    var prevSortedOrder: Option<seq<int>>
    var hasSortChanged: bool
    var sortingStamp: nat
    var memo: Option<seq<Row>>
    var memoEditing: bool
    var memoStamp: nat
    ghost var memoCols: seq<Column>
    ghost var memoData: seq<Row>

    constructor ()
      ensures sorting == None && prevSortedOrder == None && !hasSortChanged && memo == None
    {
      sorting := None;
      prevSortedOrder := None;
      hasSortChanged := false;
      sortingStamp := 0;
      memo := None;
      memoEditing := false;
      memoStamp := 0;
      memoCols := [];
      memoData := [];
    }

    /** `clearSorting`: a new sort object only when a sort was set (`null` is always the same value). */
    method ClearSorting()
      modifies this
      ensures sorting == None
      ensures sortingStamp == if old(sorting).Some? then old(sortingStamp) + 1 else old(sortingStamp)
      ensures prevSortedOrder == old(prevSortedOrder) && hasSortChanged == old(hasSortChanged)
      ensures memo == old(memo) && memoEditing == old(memoEditing) && memoStamp == old(memoStamp)
      ensures memoCols == old(memoCols) && memoData == old(memoData)
    {
      if sorting.Some? {
        sortingStamp := sortingStamp + 1;
      }
      sorting := None;
    }

    /**
     * `sortByColumn(colIndex)`: the index is a position among the enhanced columns
     * (the active ones). The change flag is set first; an index outside them then
     * throws (`ok` is false) and the sort stays as it was; otherwise the sort
     * toggles on that column's id, as a new object.
     */
    method SortByColumn(cols: seq<Column>, colIndex: int) returns (ok: bool)
      modifies this
      ensures hasSortChanged
      ensures ok <==> 0 <= colIndex < |Active(cols)|
      ensures ok ==> sorting == Some(Toggle(old(sorting), Active(cols)[colIndex].id))
      ensures ok ==> sortingStamp == old(sortingStamp) + 1
      ensures !ok ==> sorting == old(sorting) && sortingStamp == old(sortingStamp)
      ensures prevSortedOrder == old(prevSortedOrder)
      ensures memo == old(memo) && memoEditing == old(memoEditing) && memoStamp == old(memoStamp)
      ensures memoCols == old(memoCols) && memoData == old(memoData)
    {
      var enhanced := EnhancedColumns(cols, sorting);
      hasSortChanged := true;
      if !(0 <= colIndex < |enhanced|) {
        return false;
      }
      var columnId := enhanced[colIndex].id;
      sorting := Some(Toggle(sorting, columnId));
      sortingStamp := sortingStamp + 1;
      ok := true;
    }

    /** The sorted data for the current state. */
    function Output(cols: seq<Column>, data: seq<Row>, editing: bool,
                    compareDates: (Cell, Cell) -> int, localeCompare: (string, string) -> int): seq<Row>
      reads this
    {
      SortedData(cols, data, editing, sorting, prevSortedOrder, hasSortChanged, compareDates, localeCompare)
    }

    /** Whether `useMemo` finds all four dependencies the same as at its last computation. */
    predicate MemoHit(sameInputs: bool, editing: bool)
      reads this
    {
      memo.Some? && sameInputs && memoEditing == editing && memoStamp == sortingStamp
    }

    /**
     * A render. With the dependencies unchanged the memoised data comes back;
     * otherwise the sorted data for the state is computed and memoised. Then,
     * after a click, the output's id order is remembered and the flag cleared.
     * `sameInputs` says that `columns` and `data` are the last computation's objects.
     */
    method Render(cols: seq<Column>, data: seq<Row>, editing: bool, sameInputs: bool,
                  compareDates: (Cell, Cell) -> int, localeCompare: (string, string) -> int) returns (out: seq<Row>)
      requires sameInputs ==> cols == memoCols && data == memoData
      modifies this
      ensures old(MemoHit(sameInputs, editing)) ==> out == old(memo.value) && memo == old(memo)
      ensures !old(MemoHit(sameInputs, editing)) ==> out == old(Output(cols, data, editing, compareDates, localeCompare))
      ensures memo == Some(out) && memoEditing == editing && memoStamp == sortingStamp
      ensures memoCols == cols && memoData == data
      ensures sorting == old(sorting) && sortingStamp == old(sortingStamp) && !hasSortChanged
      ensures old(hasSortChanged) ==> prevSortedOrder == Some(Ids(out))
      ensures !old(hasSortChanged) ==> prevSortedOrder == old(prevSortedOrder)
    {
      if MemoHit(sameInputs, editing) {
        out := memo.value;
      } else {
        out := Output(cols, data, editing, compareDates, localeCompare);
        memo := Some(out);
        memoEditing := editing;
        memoStamp := sortingStamp;
        memoCols := cols;
        memoData := data;
      }
      if hasSortChanged {
        hasSortChanged := false;
        prevSortedOrder := Some(Ids(out));
      }
    }
  }

  /**
   * The memo at work: a click sorts the data; re-rendering with the same columns,
   * data and editing flag returns that same output, whatever the ids, and so does
   * a render after a click whose index throws, which then remembers its id order.
   */
  method ClickThenRerender(cols: seq<Column>, data: seq<Row>, editing: bool, colIndex: int,
                           compareDates: (Cell, Cell) -> int, localeCompare: (string, string) -> int)
    returns (first: seq<Row>, second: seq<Row>, third: seq<Row>, remembered: Option<seq<int>>)
    requires 0 <= colIndex < |Active(cols)|
    ensures first == SortedData(cols, data, editing, Some(SortOptions(Active(cols)[colIndex].id, Asc)), None, true,
                                compareDates, localeCompare)
    ensures second == first && third == first
    ensures remembered == Some(Ids(first))
  {
    var sorter := new ColumnSorter();
    var ok := sorter.SortByColumn(cols, colIndex);
    first := sorter.Render(cols, data, editing, false, compareDates, localeCompare);
    second := sorter.Render(cols, data, editing, true, compareDates, localeCompare);
    ok := sorter.SortByColumn(cols, -1);
    third := sorter.Render(cols, data, editing, true, compareDates, localeCompare);
    remembered := sorter.prevSortedOrder;
  }

  /**
   * The order remembered after a click is the order later renders show while
   * editing: with distinct ids and the same data, following it reproduces the
   * sorted output.
   */
  lemma RememberedOrderReplays(
    cols: seq<Column>, data: seq<Row>, editing: bool, sorting: SortOptions, prev: Option<seq<int>>,
    compareDates: (Cell, Cell) -> int, localeCompare: (string, string) -> int)
    requires DistinctIds(data)
    requires FindColumn(cols, sorting.column).Some?
    ensures var out := SortedData(cols, data, editing, Some(sorting), prev, true, compareDates, localeCompare);
      SortedData(cols, data, true, Some(sorting), Some(Ids(out)), false, compareDates, localeCompare) == out
  {
    var out := SortedData(cols, data, editing, Some(sorting), prev, true, compareDates, localeCompare);
    SortedDataPermutes(cols, data, editing, Some(sorting), prev, true, compareDates, localeCompare);
    forall i | 0 <= i < |out| ensures out[i] in data {
      assert out[i] in multiset(out);
    }
    FollowOrderReplays(out, data);
  }

  // ---------------------------------------------------------------- documented behaviour

  /** Code-unit order, standing in for `localeCompare` on plain ASCII text. */
  function OrdinalCompare(a: string, b: string): int
    decreases |a|
  {
    if |a| == 0 && |b| == 0 then 0
    else if |a| == 0 then -1
    else if |b| == 0 then 1
    else if a[0] < b[0] then -1
    else if a[0] > b[0] then 1
    else OrdinalCompare(a[1..], b[1..])
  }

  /** ISO dates compare as their text does. */
  function IsoDateCompare(a: Cell, b: Cell): int
  {
    if a.Str? && b.Str? then OrdinalCompare(a.s, b.s) else 0
  }

  function PlainColumn(id: string, kind: CellKind, customCellType: Option<string>): Column
  {
    Column(id, kind, customCellType, false, None, None, None, None, None, None)
  }

  /** The number column from the hook's tests: ascending gives ids [1, 0], descending [0, 1]. */
  lemma NumberColumnExample()
    ensures var cols := [PlainColumn("col1", NumberCell, None)];
      var data := [Row(0, map["col1" := Num(2)]), Row(1, map["col1" := Num(1)])];
      Ids(SortedData(cols, data, false, Some(SortOptions("col1", Asc)), None, true, IsoDateCompare, OrdinalCompare)) == [1, 0]
      && Ids(SortedData(cols, data, false, Some(SortOptions("col1", Desc)), Some([1, 0]), true, IsoDateCompare, OrdinalCompare)) == [0, 1]
  {
    var col := PlainColumn("col1", NumberCell, None);
    var r0 := Row(0, map["col1" := Num(2)]);
    var r1 := Row(1, map["col1" := Num(1)]);
    assert FindColumn([col], "col1") == Some(0);
    SortedDataComparator([col], [r0, r1], false, SortOptions("col1", Asc), None, true, IsoDateCompare, OrdinalCompare, 0);
    SortedDataComparator([col], [r0, r1], false, SortOptions("col1", Desc), Some([1, 0]), true, IsoDateCompare, OrdinalCompare, 0);
    assert "col1" != "id";
    var up := NumberCmp(col, Asc);
    var down := NumberCmp(col, Desc);
    assert up(r0, r1) > 0 && down(r0, r1) < 0;
    assert [r0, r1][1..] == [r1] && [r1][1..] == [];
    assert ArraySort.Sort([r1], up) == [r1] && ArraySort.Sort([r1], down) == [r1];
    ArraySort.InsertPast(r0, [r1], up);
    ArraySort.InsertFront(r0, [r1], down);
  }

  /** In a number column texts are subtracted as numbers: "5" sorts after "3" and the comparator gives 2. */
  lemma NumberTextExample()
    ensures var col := PlainColumn("col1", NumberCell, None);
      NumberCompare(col, Asc, Row(0, map["col1" := Str("5")]), Row(1, map["col1" := Str("3")])) == 2
  {
    var col := PlainColumn("col1", NumberCell, None);
    NumberOfDigit('5');
    NumberOfDigit('3');
    assert "col1" != "id";
    assert NumberValue(col, Row(0, map["col1" := Str("5")])) == Str("5");
    assert NumberValue(col, Row(1, map["col1" := Str("3")])) == Str("3");
    assert NumberKey(Str("5")) == Some(5) && NumberKey(Str("3")) == Some(3);
  }

  lemma TextExampleOrdinals()
    ensures OrdinalCompare("Aaa", "Ccc") == -1 && OrdinalCompare("Ccc", "Aaa") == 1
    ensures OrdinalCompare("Zzz", "Aaa") == 1 && OrdinalCompare("Aaa", "Zzz") == -1
    ensures OrdinalCompare("Zzz", "Ccc") == 1 && OrdinalCompare("Ccc", "Zzz") == -1
  {
  }

  /** The rows of the hook's text-column test. */
  ghost predicate TextExampleRows(col: Column, r0: Row, r1: Row, r2: Row)
  {
    col == PlainColumn("col1", TextCell, None)
    && r0 == Row(0, map["col1" := Str("Zzz")]) && r1 == Row(1, map["col1" := Str("Aaa")]) && r2 == Row(2, map["col1" := Str("Ccc")])
  }

  lemma TextExampleSorts(col: Column, r0: Row, r1: Row, r2: Row)
    requires TextExampleRows(col, r0, r1, r2)
    ensures ArraySort.Sort([r0, r1, r2], TextCmp(col, OrdinalCompare, Asc)) == [r1, r2, r0]
    ensures ArraySort.Sort([r0, r1, r2], TextCmp(col, OrdinalCompare, Desc)) == [r0, r2, r1]
  {
    TextExampleOrdinals();
    var up := TextCmp(col, OrdinalCompare, Asc);
    assert up(r1, r2) < 0 && up(r0, r2) > 0 && up(r0, r1) > 0;
    assert [r0, r1, r2][1..] == [r1, r2] && [r1, r2][1..] == [r2] && [r2][1..] == [];
    assert ArraySort.Sort([r2], up) == [r2];
    ArraySort.InsertFront(r1, [r2], up);
    assert ArraySort.Sort([r1, r2], up) == [r1, r2];
    ArraySort.InsertPast(r0, [r1, r2], up);
    ArraySort.InsertPast(r0, [r2], up);
    var down := TextCmp(col, OrdinalCompare, Desc);
    assert down(r1, r2) > 0 && down(r0, r2) < 0;
    assert ArraySort.Sort([r2], down) == [r2];
    ArraySort.InsertPast(r1, [r2], down);
    assert ArraySort.Sort([r1, r2], down) == [r2, r1];
    ArraySort.InsertFront(r0, [r2, r1], down);
  }

  /** The text column from the hook's tests: ascending gives ids [1, 2, 0], descending [0, 2, 1]. */
  lemma TextColumnExample(col: Column, r0: Row, r1: Row, r2: Row)
    requires TextExampleRows(col, r0, r1, r2)
    ensures Ids(SortedData([col], [r0, r1, r2], false, Some(SortOptions("col1", Asc)), None, true, IsoDateCompare, OrdinalCompare)) == [1, 2, 0]
    ensures Ids(SortedData([col], [r0, r1, r2], false, Some(SortOptions("col1", Desc)), Some([1, 2, 0]), true, IsoDateCompare, OrdinalCompare)) == [0, 2, 1]
  {
    assert FindColumn([col], "col1") == Some(0);
    SortedDataComparator([col], [r0, r1, r2], false, SortOptions("col1", Asc), None, true, IsoDateCompare, OrdinalCompare, 0);
    SortedDataComparator([col], [r0, r1, r2], false, SortOptions("col1", Desc), Some([1, 2, 0]), true, IsoDateCompare, OrdinalCompare, 0);
    TextExampleSorts(col, r0, r1, r2);
    var up := SortedData([col], [r0, r1, r2], false, Some(SortOptions("col1", Asc)), None, true, IsoDateCompare, OrdinalCompare);
    var down := SortedData([col], [r0, r1, r2], false, Some(SortOptions("col1", Desc)), Some([1, 2, 0]), true, IsoDateCompare, OrdinalCompare);
    assert up == [r1, r2, r0] && down == [r0, r2, r1];
    IdsOfThree(r1, r2, r0);
    IdsOfThree(r0, r2, r1);
  }

  lemma DateExampleOrdinals()
    ensures OrdinalCompare("2020-01-01", "2021-01-01") < 0 && OrdinalCompare("2021-01-01", "2020-01-01") > 0
    ensures OrdinalCompare("2020-01-01", "2022-01-01") < 0 && OrdinalCompare("2022-01-01", "2020-01-01") > 0
    ensures OrdinalCompare("2021-01-01", "2022-01-01") < 0 && OrdinalCompare("2022-01-01", "2021-01-01") > 0
  {
    assert "2020-01-01"[1..] == "020-01-01" && "020-01-01"[1..] == "20-01-01" && "20-01-01"[1..] == "0-01-01";
    assert "2021-01-01"[1..] == "021-01-01" && "021-01-01"[1..] == "21-01-01" && "21-01-01"[1..] == "1-01-01";
    assert "2022-01-01"[1..] == "022-01-01" && "022-01-01"[1..] == "22-01-01" && "22-01-01"[1..] == "2-01-01";
  }

  /** The rows of the hook's date-picker test. */
  ghost predicate DateExampleRows(col: Column, r0: Row, r1: Row, r2: Row, r3: Row)
  {
    col == PlainColumn("col1", CustomCell, Some("wave-datepicker"))
    && r0 == Row(0, map["col1" := Str("2020-01-01")]) && r1 == Row(1, map["col1" := Str("2021-01-01")])
    && r2 == Row(2, map["col1" := Str("NA")]) && r3 == Row(3, map["col1" := Str("2022-01-01")])
  }

  /** Insertion sort of four elements whose comparisons put the third last: [a, b, d, c]. */
  lemma SortFourThirdLast<T>(a: T, b: T, c: T, d: T, cmp: (T, T) -> int)
    requires cmp(c, d) > 0 && cmp(b, d) < 0 && cmp(a, b) < 0
    ensures ArraySort.Sort([a, b, c, d], cmp) == [a, b, d, c]
  {
    assert [a, b, c, d][1..] == [b, c, d] && [b, c, d][1..] == [c, d] && [c, d][1..] == [d] && [d][1..] == [];
    assert ArraySort.Sort([d], cmp) == [d];
    ArraySort.InsertPast(c, [d], cmp);
    assert ArraySort.Sort([c, d], cmp) == [d, c];
    ArraySort.InsertFront(b, [d, c], cmp);
    assert ArraySort.Sort([b, c, d], cmp) == [b, d, c];
    ArraySort.InsertFront(a, [b, d, c], cmp);
  }

  /** Insertion sort of four elements into [d, b, a, c]. */
  lemma SortFourReversedThirdLast<T>(a: T, b: T, c: T, d: T, cmp: (T, T) -> int)
    requires cmp(c, d) > 0 && cmp(b, d) > 0 && cmp(b, c) < 0
    requires cmp(a, d) > 0 && cmp(a, b) > 0 && cmp(a, c) < 0
    ensures ArraySort.Sort([a, b, c, d], cmp) == [d, b, a, c]
  {
    assert [a, b, c, d][1..] == [b, c, d] && [b, c, d][1..] == [c, d] && [c, d][1..] == [d] && [d][1..] == [];
    assert [d, c][1..] == [c] && [d, b, c][1..] == [b, c] && [b, c][1..] == [c];
    assert ArraySort.Sort([d], cmp) == [d];
    ArraySort.InsertPast(c, [d], cmp);
    assert ArraySort.Sort([c, d], cmp) == [d, c];
    ArraySort.InsertPast(b, [d, c], cmp);
    ArraySort.InsertFront(b, [c], cmp);
    assert ArraySort.Sort([b, c, d], cmp) == [d, b, c];
    ArraySort.InsertPast(a, [d, b, c], cmp);
    ArraySort.InsertPast(a, [b, c], cmp);
    ArraySort.InsertFront(a, [c], cmp);
  }

  /** The date keys of the example rows: three dates, and no date for "NA". */
  lemma DateExampleKeys(col: Column, r0: Row, r1: Row, r2: Row, r3: Row)
    requires DateExampleRows(col, r0, r1, r2, r3)
    ensures DateKey(Get(r0, col.id, Null)) == Some(Str("2020-01-01"))
    ensures DateKey(Get(r1, col.id, Null)) == Some(Str("2021-01-01"))
    ensures DateKey(Get(r2, col.id, Null)) == None
    ensures DateKey(Get(r3, col.id, Null)) == Some(Str("2022-01-01"))
  {
    assert col.id == "col1" && "col1" != "id";
  }

  lemma DateExampleSortsUp(col: Column, r0: Row, r1: Row, r2: Row, r3: Row)
    requires DateExampleRows(col, r0, r1, r2, r3)
    ensures ArraySort.Sort([r0, r1, r2, r3], DateCmp(col, IsoDateCompare, Asc)) == [r0, r1, r3, r2]
  {
    DateExampleOrdinals();
    DateExampleKeys(col, r0, r1, r2, r3);
    var up := DateCmp(col, IsoDateCompare, Asc);
    assert up(r2, r3) > 0 && up(r1, r3) < 0 && up(r0, r1) < 0;
    SortFourThirdLast(r0, r1, r2, r3, up);
  }

  lemma DateExampleSortsDown(col: Column, r0: Row, r1: Row, r2: Row, r3: Row)
    requires DateExampleRows(col, r0, r1, r2, r3)
    ensures ArraySort.Sort([r0, r1, r2, r3], DateCmp(col, IsoDateCompare, Desc)) == [r3, r1, r0, r2]
  {
    DateExampleOrdinals();
    DateExampleKeys(col, r0, r1, r2, r3);
    var down := DateCmp(col, IsoDateCompare, Desc);
    assert down(r2, r3) > 0 && down(r1, r3) > 0 && down(r1, r2) < 0;
    assert down(r0, r3) > 0 && down(r0, r1) > 0 && down(r0, r2) < 0;
    SortFourReversedThirdLast(r0, r1, r2, r3, down);
  }

  /** The date-picker column from the hook's tests, ascending: the "NA" record is last, ids [0, 1, 3, 2]. */
  lemma DateColumnExampleAsc(col: Column, r0: Row, r1: Row, r2: Row, r3: Row)
    requires DateExampleRows(col, r0, r1, r2, r3)
    ensures Ids(SortedData([col], [r0, r1, r2, r3], false, Some(SortOptions("col1", Asc)), None, true, IsoDateCompare, OrdinalCompare)) == [0, 1, 3, 2]
  {
    SortedDataComparator([col], [r0, r1, r2, r3], false, SortOptions("col1", Asc), None, true, IsoDateCompare, OrdinalCompare, 0);
    DateExampleSortsUp(col, r0, r1, r2, r3);
    var out := SortedData([col], [r0, r1, r2, r3], false, Some(SortOptions("col1", Asc)), None, true, IsoDateCompare, OrdinalCompare);
    assert out == [r0, r1, r3, r2];
    IdsOfFour(r0, r1, r3, r2);
  }

  /** The same column after a second click, descending: the "NA" record is still last, ids [3, 1, 0, 2]. */
  lemma DateColumnExampleDesc(col: Column, r0: Row, r1: Row, r2: Row, r3: Row)
    requires DateExampleRows(col, r0, r1, r2, r3)
    ensures Ids(SortedData([col], [r0, r1, r2, r3], false, Some(SortOptions("col1", Desc)), Some([0, 1, 3, 2]), true, IsoDateCompare, OrdinalCompare)) == [3, 1, 0, 2]
  {
    SortedDataComparator([col], [r0, r1, r2, r3], false, SortOptions("col1", Desc), Some([0, 1, 3, 2]), true, IsoDateCompare, OrdinalCompare, 0);
    DateExampleSortsDown(col, r0, r1, r2, r3);
    var out := SortedData([col], [r0, r1, r2, r3], false, Some(SortOptions("col1", Desc)), Some([0, 1, 3, 2]), true, IsoDateCompare, OrdinalCompare);
    assert out == [r3, r1, r0, r2];
    IdsOfFour(r3, r1, r0, r2);
  }

  lemma IdsOfThree(a: Row, b: Row, c: Row)
    ensures Ids([a, b, c]) == [a.id, b.id, c.id]
  {
  }

  lemma IdsOfFour(a: Row, b: Row, c: Row, d: Row)
    ensures Ids([a, b, c, d]) == [a.id, b.id, c.id, d.id]
  {
  }
}
