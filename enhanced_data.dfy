/**
 * The search-then-filter step of the data table: the fuzzy search over the
 * `name` property, then the column filters, each a list of accepted cell texts.
 */
module EnhancedData {
  import opened Wrappers
  import opened TableTypes

  /** One entry of the filters object: a column id and the cell texts it accepts. */
  datatype FilterEntry = FilterEntry(columnId: string, items: seq<string>)

  /** Whether one filter lets a record through: unknown columns let everything through. */
  function EntryAccepts(cols: seq<Column>, e: FilterEntry, cellData: (Column, Row) -> string, r: Row): bool
  {
    match FindColumn(cols, e.columnId)
    case None => true
    case Some(k) =>
      var content := cellData(cols[k], r);
      content in e.items || (content == "" && "Empty" in e.items)
  }

  /** A record is kept when it has no `name`, or when every filter lets it through. */
  predicate Keeps(cols: seq<Column>, filters: seq<FilterEntry>, cellData: (Column, Row) -> string, r: Row)
  {
    "name" !in r.fields || forall i :: 0 <= i < |filters| ==> EntryAccepts(cols, filters[i], cellData, r)
  }

  /** The per-record check: a flag cleared by any filter that rejects the record. */
  method KeepRecord(cols: seq<Column>, filters: seq<FilterEntry>, cellData: (Column, Row) -> string, r: Row)
    returns (keep: bool)
    ensures keep == Keeps(cols, filters, cellData, r)
  {
    if "name" !in r.fields {
      return true;
    }
    keep := true;
    var i := 0;
    while i < |filters|
      invariant 0 <= i <= |filters|
      invariant keep == forall j :: 0 <= j < i ==> EntryAccepts(cols, filters[j], cellData, r)
    {
      var e := filters[i];
      var found := FindColumn(cols, e.columnId);
      if found.Some? {
        var content := cellData(cols[found.value], r);
        if !(content in e.items || (content == "" && "Empty" in e.items)) {
          keep := false;
        }
      }
      i := i + 1;
    }
  }

  /** `search === "" ? data : fuzzy(search, data)`: the search hands the data back untouched when empty. */
  function Search(searchText: string, data: seq<Row>, fuzzy: (string, seq<Row>) -> seq<Row>): (r: seq<Row>)
    ensures searchText == "" ==> r == data
  {
    if searchText == "" then data else fuzzy(searchText, data)
  }

  /** `rows.filter(keep)`. */
  function FilterRows(rows: seq<Row>, keep: Row -> bool): (r: seq<Row>)
    ensures |r| <= |rows|
    ensures forall i :: 0 <= i < |r| ==> keep(r[i]) && r[i] in rows
    ensures forall i :: 0 <= i < |rows| && keep(rows[i]) ==> rows[i] in r
  {
    if |rows| == 0 then []
    else if keep(rows[0]) then [rows[0]] + FilterRows(rows[1..], keep)
    else FilterRows(rows[1..], keep)
  }

  /** The data the table shows: the search result, minus the records the filters reject. */
  function Enhanced(cols: seq<Column>, data: seq<Row>, filters: seq<FilterEntry>, searchText: string,
                    fuzzy: (string, seq<Row>) -> seq<Row>, cellData: (Column, Row) -> string): seq<Row>
  {
    FilterRows(Search(searchText, data, fuzzy), r => Keeps(cols, filters, cellData, r))
  }

  lemma {:induction false} FilterIsSubsequence(rows: seq<Row>, keep: Row -> bool)
    ensures IsSubsequence(FilterRows(rows, keep), rows)
  {
    if |rows| > 0 {
      FilterIsSubsequence(rows[1..], keep);
      var r := FilterRows(rows, keep);
      if keep(rows[0]) {
        assert r[1..] == FilterRows(rows[1..], keep);
      }
    }
  }

  /** The output keeps the search result's order and drops exactly the rejected records. */
  lemma EnhancedSubsequence(cols: seq<Column>, data: seq<Row>, filters: seq<FilterEntry>, searchText: string,
                            fuzzy: (string, seq<Row>) -> seq<Row>, cellData: (Column, Row) -> string)
    ensures var found := Search(searchText, data, fuzzy);
      var out := Enhanced(cols, data, filters, searchText, fuzzy, cellData);
      IsSubsequence(out, found)
      && (forall r :: r in found ==> (r in out <==> Keeps(cols, filters, cellData, r)))
  {
    FilterIsSubsequence(Search(searchText, data, fuzzy), r => Keeps(cols, filters, cellData, r));
  }

  lemma {:induction false} FilterAllKept(rows: seq<Row>, keep: Row -> bool)
    requires forall i :: 0 <= i < |rows| ==> keep(rows[i])
    ensures FilterRows(rows, keep) == rows
  {
    if |rows| > 0 {
      FilterAllKept(rows[1..], keep);
      assert [rows[0]] + rows[1..] == rows;
    }
  }

  /** With no search text and no filters the table shows its data unchanged. */
  lemma EnhancedIdentity(cols: seq<Column>, data: seq<Row>, fuzzy: (string, seq<Row>) -> seq<Row>,
                         cellData: (Column, Row) -> string)
    ensures Enhanced(cols, data, [], "", fuzzy, cellData) == data
  {
    FilterAllKept(data, r => Keeps(cols, [], cellData, r));
  }

  /** A filter on a column the table does not have changes nothing. */
  lemma UnknownColumnFilterIgnored(cols: seq<Column>, filters: seq<FilterEntry>, e: FilterEntry,
                                   cellData: (Column, Row) -> string, r: Row)
    requires forall j :: 0 <= j < |cols| ==> cols[j].id != e.columnId
    ensures Keeps(cols, filters + [e], cellData, r) == Keeps(cols, filters, cellData, r)
  {
    assert EntryAccepts(cols, e, cellData, r);
    assert forall i :: 0 <= i < |filters| ==> (filters + [e])[i] == filters[i];
  }

  /** A record with no `name` property passes every filter. */
  lemma NamelessRecordKept(cols: seq<Column>, filters: seq<FilterEntry>, cellData: (Column, Row) -> string, r: Row)
    requires "name" !in r.fields
    ensures Keeps(cols, filters, cellData, r)
  {
  }
}
