# Wave gateway and data-table core, modelled in Dafny

This project models the decision logic of the Wave web application's GraphQL
gateway and of its React data-table and chart components, and proves
properties about that model.

On the gateway side (`node/app.ts` and `node/subscribe/*`) it covers:

- the union-type resolver that picks a GraphQL type name for a `value`/`name` pair;
- the router that sends a WebSocket upgrade to the legacy or the modern transport, based on the `Sec-WebSocket-Protocol` header;
- the per-request trace id, written on the shared logger and in the `X-WaveTraceId` response header;
- the HTTP execution context built from the authenticated user;
- the modern server's teardown of a closed connection's subscription iterators;
- the legacy server's socket ids and operation contexts;
- the broker-backed subscriptions. Each binds a topic on an exchange and publishes `{ key: [payload].flat() }`.

On the browser side it covers:

- the sorting hook: the toggled direction, the column icons, the number, date and text comparators, and the order kept while a cell is edited;
- the row-selection hook: plain, ctrl and shift clicks, and the header checkbox that selects or clears all;
- the filter hook over a fuzzy search;
- `DataTable`'s cell content, its Delete/Backspace range clear, its column-filter menu, its edit acceptance and accumulation, and multi-cell paste with fill;
- the chart's tick formats, y-axis bounds, left margin, line-series order and crosshair;
- the theme helpers: simple and multi getters, light/dark selection, lazy variants, breakpoint media queries and transitions;
- the location query cache (`react/queries/locations.ts`): the filter builder, the optimistic updates and their rollback, the backup reused by discard, removal, refetch merging, and the batched cache upsert.

Each module follows one source file.

- Pure code is written as datatypes, functions and lemmas.
- Code that mutates state is written as classes with `modifies` clauses, whose methods are proved against specification functions. This covers the logger, the response, sockets, subscription iterators, the selection and sorting refs, the react-query cache with its module-wide backup, and the batched updater.
- Loops in the source are methods with loop invariants. These are the teardown loop, the range clear, the paste loops, the filter loop and the cache flush.

Shared helpers live in their own modules:

- `Wrappers`: options and map lookups.
- `JsText`: `split`, `join`, `trim` and decimal digits.
- `JsValues`: JavaScript values with truthiness, `||` and `??`.
- `TableTypes`: columns, rows and lodash `get`.
- `ArraySort`: a stable insertion sort standing in for `Array.prototype.sort`.

## Model

| member | source | states |
|---|---|---|
| TypeResolver.IsJobProcessingResp | node/app.ts:206-207 | A response counts as a job receipt exactly when its `jobId` or `jobBatchUUID` is truthy. A value that is not an object never counts. |
| TypeResolver.ResolveType | node/app.ts:208-247 | The resolver fails exactly for an abstract type outside the six response families and `Segment`, with the "Unhandled union or interface" message naming it. |
| TypeResolver.JobReceiptResolved | node/app.ts:214-238 | In every response family, a value with a truthy job id resolves to `JobProcessingResponse`. |
| TypeResolver.DataVariantResolved | node/app.ts:214-238 | In every response family, a value without a truthy job id resolves to that family's own data type. |
| TypeResolver.SegmentResolved | node/app.ts:239-243 | A `Segment` never fails. It is a `DataSeriesSegment` exactly when its `_segmentType` is the time-series tag, and a `LineEqSegment` otherwise. |
| TypeResolver.ResolvedTypesKnown | node/app.ts:214-245 | Every successful resolution names one of the eight concrete types. |
| TypeResolver.OnlyNameAndValueMatter | node/app.ts:208-214 | The context, the info and everything but the abstract type's name leave the result unchanged. |
| TypeResolver.PopEvalExamples | node/app.ts:215-218 | `{jobId: "abc"}` is a job receipt. `{points: ...}` and an empty `jobId` resolve to the data type. |
| UpgradeRouter.HeaderParses | node/app.ts:387-390 | Tokens joined by commas, with any padding, parse back to the trimmed tokens. |
| UpgradeRouter.LegacyIffOnlyLegacyOffered | node/app.ts:387-399 | On a text header, the legacy server is chosen if and only if some token trims to `graphql-ws` and none trims to `graphql-transport-ws`. |
| UpgradeRouter.NoHeaderModern | node/app.ts:395-399 | Without the header, the modern server takes the upgrade. |
| UpgradeRouter.BothOfferedModern | node/app.ts:395-399 | A client offering both tokens, in any positions, gets the modern server. |
| UpgradeRouter.ArrayHeaderUnchanged | node/app.ts:388-390 | An array header is neither split nor trimmed, so a padded legacy token in it is not recognised. |
| UpgradeRouter.LegacyOfferExample | node/app.ts:395-399 | A header of `graphql-ws` alone reaches the legacy server. |
| UpgradeRouter.BothOfferExample | node/app.ts:393-399 | `graphql-transport-ws, graphql-ws` reaches the modern server. |
| Connections.TraceIdOf | node/app.ts:252 | The trace id is a prefix of the generated id, eight characters long, or the whole id when it is shorter. |
| Connections.Logger.SetTraceId | node/app.ts:253 | The logger then holds exactly that trace id. |
| Connections.HttpResponse.SetHeader | node/app.ts:254 | Exactly one header is set, and the response's locals are untouched. |
| Connections.TraceStep | node/app.ts:251-255 | The logger and the `X-WaveTraceId` header get the same shortened id. Nothing else on the response changes. |
| Connections.RequestContext | node/app.ts:260-270 | The context has exactly `user`, `roles`, `access` and `traceId`. Each of the first three holds the user's own value when it is defined, and null otherwise. With no truthy user, all three are null. `traceId` is the logger's id. |
| Connections.HandleQuery | node/app.ts:251-270 | The executor's context is built from the locals as the request arrived. Its `traceId` equals the `X-WaveTraceId` header when no other request runs in between. |
| Connections.SubscriptionStream.Return | node/app.ts:314 | Each call to `return` is counted once. |
| Connections.OnClose | node/app.ts:300-319 | With no subscriptions, nothing is closed. Otherwise the closed keys, in entry order, are those whose iterator has `return`. Each iterator's count of `return` calls grows by the number of entries that hold it and close. |
| Connections.ClosedKeysExact | node/app.ts:302-318 | A key is closed if and only if some entry with that key holds an iterator with `return`. |
| Connections.CallsOnBound | node/app.ts:305-316 | An iterator without `return`, or one that no entry holds, is never called. |
| Connections.ReturnCalledOnce | node/app.ts:300-319 | With one iterator per subscription, each iterator that has `return` is called exactly once. |
| Connections.OnConnect | node/app.ts:356-362 | The same socket is handed back, now carrying the generated id. |
| Connections.SocketIdValue | node/app.ts:377 | `socket?.id` is the socket's id once assigned, and undefined without a socket or an id. |
| Connections.OperationContext | node/app.ts:367-379 | `socketId` is always present and holds `socket?.id`. Every other key is the authentication context's, with its value. A nullish context contributes no keys. |
| Connections.SocketIdOverridesAuth | node/app.ts:372-378 | After connect, `socketId` is the socket's id even when the authentication context has its own `socketId`. Every other key keeps its value. |
| Connections.DistinctSocketIds | node/app.ts:356-379 | Sockets connected with different ids give their operations different `socketId`s. |
| BrokerEvents.Normalize | node/subscribe/documents/index.ts:11 | A single event becomes a one-element list, and a batch becomes its own list of items. |
| BrokerEvents.Resolve | node/subscribe/documents/index.ts:10-12 | The payload has exactly one key, holding the normalised list. |
| BrokerEvents.FlatAppend | node/subscribe/locations/index.ts:9 | Flattening a concatenation gives the concatenation of the flattenings. |
| BrokerEvents.FlatOfEvents | node/subscribe/locations/index.ts:9 | A list of plain events flattens to itself, with length, contents and order kept. |
| BrokerEvents.NormalizeIdempotent | node/subscribe/locations/index.ts:9 | Re-publishing a published list as a batch gives the same list. |
| BrokerEvents.OneLevelOnly | node/subscribe/locations/index.ts:9 | Flattening opens one level only: an array inside a batch is published as an array. |
| DocumentSubscriptions.Resolver | node/subscribe/documents/index.ts:10-12 | The only key is `gqlDocumentMutation`. It holds a single event as a one-element list and a batch as its items. |
| DocumentSubscriptions.GqlDocumentMutationSubscription | node/subscribe/documents/index.ts:25-35 | The subscription binds `document.mutation.#` on the documents exchange. |
| DocumentSubscriptions.BindingPublishes | node/subscribe/documents/index.ts:30-34 | The bound resolver publishes an event, or a batch in order, under `gqlDocumentMutation`. |
| DocumentSubscriptions.FiltersIgnored | node/subscribe/documents/index.ts:25-34 | The binding is the same whatever the arguments and context. |
| JobSubscriptions.Resolver | node/subscribe/jobs/index.ts:7-11 | The only key is `jobsResult`. It holds a single event as a one-element list and a batch as its items. |
| JobSubscriptions.JobsResultSubscription | node/subscribe/jobs/index.ts:25-34 | The subscription binds `jobs.scheduled.complete` on the documents exchange. |
| JobSubscriptions.BindingPublishes | node/subscribe/jobs/index.ts:29-33 | The bound resolver publishes an event, or a batch in order, under `jobsResult`. |
| JobSubscriptions.FiltersIgnored | node/subscribe/jobs/index.ts:25-33 | The binding is the same whatever the arguments and context. |
| MapSubscriptions.Resolver | node/subscribe/map/index.ts:7-9 | The only key is `mapLayers`. It holds a single event as a one-element list and a batch as its items. |
| MapSubscriptions.MapLayersSubscription | node/subscribe/map/index.ts:23-33 | The subscription binds `map.layers.*` on the documents exchange. |
| MapSubscriptions.BindingPublishes | node/subscribe/map/index.ts:28-32 | The bound resolver publishes an event, or a batch in order, under `mapLayers`. |
| MapSubscriptions.FiltersIgnored | node/subscribe/map/index.ts:23-32 | The binding is the same whatever the arguments and context. |
| LocationSubscriptions.LocationMutationResolver | node/subscribe/locations/index.ts:8-10 | The only key is `locationMutation`. It holds a single event as a one-element list and a batch as its items. |
| LocationSubscriptions.LocationMetrics | node/subscribe/locations/index.ts:11-13 | The only key is `locationMetrics`. It holds a single event as a one-element list and a batch as its items. |
| LocationSubscriptions.LocationMetricsSubscription | node/subscribe/locations/index.ts:36-46 | The metrics subscription binds `meter.metrics.#` on the h2obridge exchange. |
| LocationSubscriptions.LocationMutationSubscription | node/subscribe/locations/index.ts:47-56 | The mutation subscription binds `locations.mutation.#` on the documents exchange. |
| LocationSubscriptions.MetricsBindingPublishes | node/subscribe/locations/index.ts:40-45 | The metrics binding publishes an event, or a batch in order, under `locationMetrics`. |
| LocationSubscriptions.MutationBindingPublishes | node/subscribe/locations/index.ts:51-60 | The mutation binding publishes the normalised payload under `locationMutation`, and the exported `resolver` is that same function. |
| LocationSubscriptions.FiltersIgnored | node/subscribe/locations/index.ts:36-56 | Neither binding depends on the arguments or context. |
| TableTypes.Get | react/hooks/useSortByColumn.ts:85 | lodash `get` with a default gives the record's property when it exists, and the default otherwise. |
| TableTypes.FindColumn | react/hooks/useSortByColumn.ts:67 | The result is the first column with the id, or none when no column has it. |
| TableTypes.FindRow | react/hooks/useSortByColumn.ts:73 | The result is the first record with the id, or none exactly when no record has it. |
| TableTypes.Ids | react/hooks/useSortByColumn.ts:132 | One id per record, in record order. |
| ArraySort.SortPermutes | react/hooks/useSortByColumn.ts:80 | The sorted copy holds the same records, each as often. |
| ArraySort.SortSorted | react/hooks/useSortByColumn.ts:84-98 | When the comparator is total and transitive on the data, the copy is in order. |
| ArraySort.SortAll | react/hooks/useSortByColumn.ts:80 | A property that holds of every input record holds of every output record. |
| ArraySort.SortPartitioned | react/hooks/useSortByColumn.ts:93-95 | When the comparator puts one class of records after the rest, sorting leaves that class at the end. |
| SortByColumn.Flip | react/hooks/useSortByColumn.ts:55 | Flipping always changes the direction. |
| SortByColumn.Toggle | react/hooks/useSortByColumn.ts:54-61 | A click sorts by the clicked column. The direction flips when the column was already sorted, and is ascending otherwise. |
| SortByColumn.ToggleTwice | react/hooks/useSortByColumn.ts:54-61 | A second click on the same header reverses the first click's direction. A third click returns to the first click's sort. |
| SortByColumn.Active | react/hooks/useSortByColumn.ts:36 | No inactive column is kept. |
| SortByColumn.EnhancedColumns | react/hooks/useSortByColumn.ts:33-46 | There is one column per active column, in order. Only the sorted column changes, taking its direction's icon. |
| SortByColumn.EnhancedColumnsOnlySortedGetsIcon | react/hooks/useSortByColumn.ts:35-44 | Ids are kept. A column's icon changes only when it is the sorted column, and then shows the direction. |
| SortByColumn.FollowOrder | react/hooks/useSortByColumn.ts:72-74 | Replaying a remembered order yields at most one record per remembered id, every one taken from the data. |
| SortByColumn.FollowOrderIds | react/hooks/useSortByColumn.ts:71-75 | The replayed ids are the remembered ids that still exist, in remembered order. Each comes with the first record of its id. |
| SortByColumn.FollowOrderReplays | react/hooks/useSortByColumn.ts:71-75 | When ids are distinct, replaying the ids of any arrangement of the records gives that arrangement back. |
| SortByColumn.NumberCompare | react/hooks/useSortByColumn.ts:84-97 | A null value sorts after every non-null one, in both directions, and two nulls are equal. Texts are converted with `Number`. Two numbers compare by their difference: negative exactly when the first comes first in the chosen direction, zero exactly when they are equal. A NaN difference, from a text that is not a number, counts as equal. |
| SortByColumn.DateCompare | react/hooks/useSortByColumn.ts:102-113 | A missing date (null, empty or "NA") sorts after every date in both directions, and two missing dates are equal. Two dates compare by `compareAsc`, with the arguments swapped for `Desc`. |
| SortByColumn.TextCompare | react/hooks/useSortByColumn.ts:117-126 | An empty text sorts after every other value in both directions, and two empty texts are equal. A non-text value is equal to any other non-empty value. Two texts compare by `localeCompare`, with the arguments swapped for `Desc`. |
| SortByColumn.SortedData | react/hooks/useSortByColumn.ts:66-128 | With no sort, or a sort on a missing column, the data comes back unchanged. Every output record comes from the data. Unless the remembered order is replayed, the output has as many records as the data. |
| SortByColumn.SortedDataComparator | react/hooks/useSortByColumn.ts:77-127 | Without a custom sorter, a number column sorts by the number comparator, a date-picker column by the date comparator, and any other column by the text comparator. |
| SortByColumn.SortedDataUnsorted | react/hooks/useSortByColumn.ts:67-69 | With no sort, or a sort on a column that does not exist, the data is returned as it is. |
| SortByColumn.SortedDataPermutes | react/hooks/useSortByColumn.ts:79-127 | Unless the remembered order is replayed, the output holds exactly the input records. |
| SortByColumn.SortedDataFrozen | react/hooks/useSortByColumn.ts:71-75 | While editing with a remembered order and no new click, the output follows the remembered ids. |
| SortByColumn.NumberSortOrder | react/hooks/useSortByColumn.ts:83-98 | Nulls come last in both directions. When no value is NaN, the non-null values are ascending by their number, or descending for `Desc`. Texts are converted. |
| SortByColumn.DateSortMissingLast | react/hooks/useSortByColumn.ts:101-114 | Records with no date (null, empty or "NA") come last in both directions. |
| SortByColumn.TextSortEmptyLast | react/hooks/useSortByColumn.ts:117-127 | Empty texts come last in both directions. |
| SortByColumn.TextSortOrder | react/hooks/useSortByColumn.ts:117-127 | Under a total, transitive `localeCompare`, when every value is a text, empty or not, the non-empty texts come out in the chosen direction. |
| SortByColumn.ColumnSorter.ClearSorting | react/hooks/useSortByColumn.ts:31 | The sort is cleared, and both refs and the memo are kept. A set sort becomes a new dependency value. |
| SortByColumn.ColumnSorter.SortByColumn | react/hooks/useSortByColumn.ts:33-64 | The change flag is always set. The index counts the active columns. Inside them, the sort toggles on that active column's id. Past them, the handler throws and the sort is kept. |
| SortByColumn.ColumnSorter.Render | react/hooks/useSortByColumn.ts:66-133 | With `[columns, data, editing, sorting]` unchanged, the memoised output comes back; otherwise the output is the sorted data for the state, and it is memoised. After a click, the output's id order is remembered and the flag is cleared. Otherwise the remembered order is kept. |
| SortByColumn.ClickThenRerender | react/hooks/useSortByColumn.ts:48-133 | A click sorts its column ascending. Re-rendering with the same inputs, even after a click that throws, returns the same output, and its id order is remembered. |
| SortByColumn.RememberedOrderReplays | react/hooks/useSortByColumn.ts:130-133 | When ids are distinct, the order remembered after a click reproduces that click's output on every later render during an edit. |
| SortByColumn.NumberColumnExample | react/hooks/useSortByColumn.test.ts:9-34 | The number test: ascending gives ids 1, 0 and the second click gives 0, 1. |
| SortByColumn.NumberTextExample | react/hooks/useSortByColumn.ts:97 | In a number column, the texts "5" and "3" subtract as numbers, so the comparator gives 2. |
| SortByColumn.TextColumnExample | react/hooks/useSortByColumn.test.ts:36-63 | The text test: ascending gives ids 1, 2, 0 and the second click gives 0, 2, 1. |
| SortByColumn.DateColumnExampleAsc | react/hooks/useSortByColumn.test.ts:65-89 | The date test, ascending: ids 0, 1, 3, 2, the "NA" record last. |
| SortByColumn.DateColumnExampleDesc | react/hooks/useSortByColumn.test.ts:91-95 | After the second click: ids 3, 1, 0, 2, the "NA" record still last. |
| RowSelection.Range | react/hooks/useRowSelection.ts:26 | A range pair selects the rows from its first bound up to, but not including, its second. |
| RowSelection.First | react/hooks/useRowSelection.ts:49-52 | `first()` is the lowest selected row, and undefined exactly when nothing is selected. |
| RowSelection.Last | react/hooks/useRowSelection.ts:49-52 | `last()` is the highest selected row, and undefined exactly when nothing is selected. |
| RowSelection.ToArray | react/hooks/useRowSelection.ts:42 | `toArray()` lists exactly the selected rows, ascending and each once. |
| RowSelection.Records | react/hooks/useRowSelection.ts:42 | One entry per selected row: the record at that index, undefined past the data. |
| RowSelection.TouchedHasRow | react/hooks/useRowSelection.ts:25-27 | Every click, shift-click included, touches the clicked row. |
| RowSelection.ClickSelectedDeselects | react/hooks/useRowSelection.ts:29-30 | A click on a selected row removes it and the rows the click touches. Every other row stays selected. |
| RowSelection.PlainClickSelectsOne | react/hooks/useRowSelection.ts:31-32 | A plain click on an unselected data cell selects its row and only that row. |
| RowSelection.CtrlClickAdds | react/hooks/useRowSelection.ts:33-34 | A ctrl-click, or a click on the row marker, adds an unselected row to the selection. |
| RowSelection.ShiftClickRange | react/hooks/useRowSelection.ts:25-34 | A shift-click on an unselected row keeps the selection and adds the clicked row. Downward it adds every row from the previous one, both included. Upward it stops short of the previous row, leaving that row as it was. |
| RowSelection.SelectAllByEndpoints | react/hooks/useRowSelection.ts:59-62 | Unless the event is being swallowed, "select all" is decided exactly when the new selection holds row 0 and the last row and nothing past the table. |
| RowSelection.EndpointsCountAsAll | react/hooks/useRowSelection.ts:59-62 | On three or more rows, selecting only the first and last rows counts as selecting all. |
| RowSelection.ClearAllWhen | react/hooks/useRowSelection.ts:64-67 | "Clear all" is decided exactly when nothing is swallowed, the old selection spanned the table and the new one is empty. |
| RowSelection.RowSelector.SelectCellRow | react/hooks/useRowSelection.ts:19-45 | The rows follow the click rules with the other selection parts kept. The clicked cell is remembered and the cell flag is set. The records of the new rows are returned in row order. |
| RowSelection.RowSelector.UpdateIfSelectAllRows | react/hooks/useRowSelection.ts:47-70 | A swallowed event clears the cell flag and changes nothing else. Select-all adopts the new selection and returns every record. Clear-all empties the rows and returns no records. Any other selection changes nothing. |
| EnhancedData.KeepRecord | react/hooks/useEnhancedData.ts:24-39 | A record is kept exactly when it has no `name`, or every filter on a known column contains its cell text, or "Empty" for an empty cell. |
| EnhancedData.Search | react/src/fuzzySort.ts:47 | An empty search returns the data unchanged. |
| EnhancedData.FilterRows | react/hooks/useEnhancedData.ts:23 | Exactly the records the predicate keeps are returned, every one taken from the input. |
| EnhancedData.FilterIsSubsequence | react/hooks/useEnhancedData.ts:23 | Filtering keeps the survivors in their original order. |
| EnhancedData.EnhancedSubsequence | react/hooks/useEnhancedData.ts:22-40 | The table shows a subsequence of the search result, holding a record exactly when the filters keep it. |
| EnhancedData.FilterAllKept | react/hooks/useEnhancedData.ts:23-40 | When every record is kept, the data comes back unchanged. |
| EnhancedData.EnhancedIdentity | react/hooks/useEnhancedData.ts:21-41 | With no search text and no filters, the table shows its data unchanged. |
| EnhancedData.UnknownColumnFilterIgnored | react/hooks/useEnhancedData.ts:29-30 | Adding a filter on a column the table does not have changes no decision. |
| EnhancedData.NamelessRecordKept | react/hooks/useEnhancedData.ts:24 | A record without `name` passes every filter. |
| DataTable.CellContent | react/src/DataTable.tsx:272-294 | Inside the table, a cell is its formatted value. Past the records or the columns, it is an empty text cell with no editor. |
| DataTable.RowCells | react/src/DataTable.tsx:345-346 | One row of a range visits its cells left to right. |
| DataTable.RangeRowsCover | react/src/DataTable.tsx:344-346 | The loops visit `width` times `height` cells, and a cell is visited exactly when it lies inside the range. |
| DataTable.ClearEdits | react/src/DataTable.tsx:350-359 | One clear edit per visited cell, in order. |
| DataTable.ClearRow | react/src/DataTable.tsx:345-360 | A row succeeds exactly when every cell in it is a custom cell with an editor, and then yields one clear edit per cell. |
| DataTable.ClearRange | react/src/DataTable.tsx:344-361 | The clear succeeds exactly when every cell of the range can be cleared, and then yields the range's cells in reading order. |
| DataTable.KeyDown | react/src/DataTable.tsx:336-364 | Edits are made exactly when the table is editing, the key is Delete or Backspace, there is a current range and every cell in it can be cleared. They are that range's clear edits. |
| DataTable.ClearPastTableRefused | react/src/DataTable.tsx:274-281 | A non-empty range reaching past the records or columns is never cleared. |
| DataTable.Omit | react/src/DataTable.tsx:380 | Exactly the filters of other columns are kept. |
| DataTable.MenuValues | react/src/DataTable.tsx:382-398 | A value is offered exactly when some record passing the other filters has that non-empty content in the menu's column. |
| DataTable.Distinct | react/src/DataTable.tsx:400 | The same values are kept, each once, in the order in which they first appear. |
| DataTable.CurrentFilterValues | react/src/DataTable.tsx:375-401 | With no menu open the result is empty, and a menu on a missing column throws. Otherwise each value appears once, exactly when some local record that passes every other column's filter shows it, non-empty, in the menu's column. |
| DataTable.UnknownFilterEmptiesMenu | react/src/DataTable.tsx:383-385 | A filter on a column the table lacks empties every other column's menu. |
| DataTable.OwnFilterIgnored | react/src/DataTable.tsx:380 | A menu's own column filter never changes the values it offers. |
| DataTable.FieldOf | react/src/DataTable.tsx:432 | lodash `get` reads the id, or the record's property, undefined when it is missing. |
| DataTable.TargetField | react/src/DataTable.tsx:432 | lodash `get` on `undefined` gives `undefined`. On a record it reads the record's property, and on a built object that object's own property. |
| DataTable.SetField | react/src/DataTable.tsx:450 | `set` replaces the one property and keeps everything else. A numeric `id` replaces the id; a text or null `id` is not stored (see "## Left out"). |
| DataTable.SetTarget | react/src/DataTable.tsx:450 | lodash/fp `set` on a record replaces the one property. On `undefined` it builds an object holding just that property. |
| DataTable.EditedRecord | react/src/DataTable.tsx:417 | The edited record is the data's record at the row, and it is `undefined` exactly when the row lies outside the data. |
| DataTable.Updated | react/src/DataTable.tsx:448-451 | Without an updater, the record is the old one with the property set. An updated record of the table stays a record. |
| DataTable.EditStep | react/src/DataTable.tsx:412-452 | A refused or unchanged edit leaves the state as it was. An accepted edit appends one callback, with the record as edited so far. An edit inside the data leaves the entry under `undefined` alone and adds at most its own record's entry. An edit past the data leaves the record entries alone. |
| DataTable.FoldEdits | react/src/DataTable.tsx:412-452 | There is at most one callback per edit. Entries are kept only under records of the data; the one under `undefined` is apart. |
| DataTable.ApplyEdits | react/src/DataTable.tsx:459 | Every edited record is replaced by its edited copy. The other records, and the order, are kept. |
| DataTable.CellsEdited | react/src/DataTable.tsx:403-465 | Without `onDataEdited`, nothing is called and the data is kept. Otherwise the callbacks and the new local data are those of the edits handled in order, rows past the data included. |
| DataTable.EditDropped | react/src/DataTable.tsx:421-434 | An edit, on any row, leaves the state unchanged exactly when it is refused by the validator or the number check, or when its value is already the current one. |
| DataTable.EditAccepted | react/src/DataTable.tsx:436-451 | An edit that is not dropped makes one callback with the record as edited so far. It stores the updated copy under the original record, or under `undefined` for a row past the data, and touches no other entry. |
| DataTable.EditsAccumulate | react/src/DataTable.tsx:431-451 | Two edits to different properties of one record accumulate in one copy and make two callbacks. |
| DataTable.PastEndKeepsData | react/src/DataTable.tsx:416-459 | Edits of rows past the data leave no entry under any record, so the local data is kept. |
| DataTable.PastEndFirstEdit | react/src/DataTable.tsx:416-451 | The first accepted edit past the data hands `undefined` to the callback. Without an updater, the entry under `undefined` is an object holding just that property. |
| DataTable.NumberCheckExamples | react/src/DataTable.tsx:427 | Because `parseInt` reads a leading number, "12abc" and " -3" pass a number column's check, while "abc" and "-" fail it. |
| DataTablePaste.Repeats | react/src/DataTable.tsx:495-496 | When filling, a repeat count times the block's size covers the selection on that side. When not filling, or on a side of 1, the count is 1. |
| DataTablePaste.ShouldFill | react/src/DataTable.tsx:487-489 | When filling, a whole number of copies fits exactly on each side that is not 1. When not filling, some side is neither 1 nor an exact multiple of the block's side. |
| DataTablePaste.Plan | react/src/DataTable.tsx:482-496 | The plan starts at the range's top-left corner and takes the block's width from its first row. |
| DataTablePaste.Then | react/src/DataTable.tsx:500-522 | A crash in either half is a crash. Otherwise the edits are joined in order. |
| DataTablePaste.CellEdit | react/src/DataTable.tsx:501-520 | A missing column crashes. An open target (existing and not read-only) gets exactly its one edit. A read-only target gets none. Every edit writes the copied value at its offset, into a column that exists, with that column's kind, on a cell that is not read-only. |
| DataTablePaste.RowEdits | react/src/DataTable.tsx:501-521 | Every edit from a copied row is such a tile edit. |
| DataTablePaste.BlockEdits | react/src/DataTable.tsx:500-522 | Every edit from a copy of the block is such a tile edit. |
| DataTablePaste.ColumnEdits | react/src/DataTable.tsx:499-523 | Every edit of the vertical copies targets a writable cell with its column's kind. |
| DataTablePaste.AllEdits | react/src/DataTable.tsx:498-524 | Every edit of all the copies targets a writable cell with its column's kind. |
| DataTablePaste.PasteResult | react/src/DataTable.tsx:467-531 | While editing with whole rows selected, the paste returns `false`. Not editing, or with no range, it returns `true`. An empty block crashes. Edits are made only while editing, with no rows selected, a range and a non-empty block, and every edit targets a writable cell. |
| DataTablePaste.AllCrashStays | react/src/DataTable.tsx:505-506 | Once a missing column has thrown, later copies do not undo the crash. |
| DataTablePaste.PasteValueRow | react/src/DataTable.tsx:501-521 | The loop over a copied row yields exactly that row's edits, or the crash. |
| DataTablePaste.PasteBlock | react/src/DataTable.tsx:500-522 | The loop over the block yields exactly that copy's edits, or the crash. |
| DataTablePaste.PasteColumn | react/src/DataTable.tsx:499-523 | The inner `for` yields exactly the edits of the vertical copies, or the crash. |
| DataTablePaste.Paste | react/src/DataTable.tsx:467-531 | `handlePaste` returns, pastes or throws just as the outcome function does. |
| DataTablePaste.FillCoversSelection | react/src/DataTable.tsx:487-496 | When filling, the copies cover the selection exactly on every side that is not 1. Otherwise the block is pasted once. |
| DataTablePaste.FillExamples | react/src/DataTable.tsx:487-489 | A 4×6 selection is filled by a 2×3 block, and so is a 1×6 one. A 5×6 selection is not, and nor is any selection when the block has width 0. |
| DataTablePaste.AllEditsTiled | react/src/DataTable.tsx:498-524 | For a rectangular block, every edit of the loops lies within the copies and holds the copied value at its offset modulo the block's size. Its target is writable. |
| DataTablePaste.PasteTiles | react/src/DataTable.tsx:467-526 | For a rectangular block, every pasted edit lies within the pasted copies, carries the copied value at its offset modulo the block's size, and targets a writable cell of that column's kind. |
| DataTablePaste.AllEditsComplete | react/src/DataTable.tsx:498-524 | Every open target of the copies, at every row and column offset of the block, gets its edit. |
| DataTablePaste.AllEditsDistinct | react/src/DataTable.tsx:498-524 | For a rectangular block, no two edits of the loops share a target cell. |
| DataTablePaste.PasteComplete | react/src/DataTable.tsx:467-526 | For a rectangular block, the paste writes every cell of the copies that exists and is not read-only, with the copied value at its offset, and writes no cell twice. |
| ChartBase.HandleTickFormats | react/src/ChartBase.tsx:135-168 | Under 24 hours the ticks are HH, mm and ss. From 24 to 48 hours they are MMM, dd and HH. Beyond that they are yyyy, MM/yyyy and dd. |
| ChartBase.TicksCoarsen | react/src/ChartBase.tsx:141-161 | A longer span never gets finer small ticks. |
| ChartBase.TickBandEdges | react/src/ChartBase.tsx:143-156 | 23 hours is intraday, 24 and 48 hours are day ticks, and 49 hours are month ticks. |
| ChartBase.NumberOfDigits | react/src/ChartBase.tsx:237 | `Number` of the empty digit string is 0. |
| ChartBase.YAxisBounds | react/src/ChartBase.tsx:227-242 | Without a range, the bounds are 0 and the default. With one, each bound is the number its digits spell. |
| ChartBase.YAxisRoundTrip | react/src/ChartBase.tsx:234-241 | Bounds typed as plain numbers come back as those numbers. |
| ChartBase.EmptyEndIsZero | react/src/ChartBase.tsx:236-239 | An end bound with no digit gives 0 and never the default, so the NaN check cannot fire. |
| ChartBase.DecoratedBounds | react/src/ChartBase.tsx:235-237 | Bounds read by their digits alone: "-5" is 5 and "1,000 bbl" is 1000. |
| ChartBase.LeftMargin | react/src/ChartBase.tsx:244-246 | The margin grows by six pixels per digit of the maximum, plus one character for a minus sign. |
| ChartBase.MarginByMagnitude | react/src/ChartBase.tsx:245 | A maximum between 10^(k-1) and 10^k widens the margin by 6k. |
| ChartBase.IndexOf | react/src/ChartBase.tsx:220 | `indexOf` gives the first position of the id, or -1 exactly when the id is absent. |
| ChartBase.Lines | react/src/ChartBase.tsx:219 | Only line series are kept, and every line series is kept as often as it was given. |
| ChartBase.LineSeries | react/src/ChartBase.tsx:217-223 | Exactly the line series are drawn, each as often as given. They are ordered by their position in the line order, unlisted ids first. |
| ChartBase.InRange | react/src/ChartBase.tsx:295-296 | lodash `inRange` holds from the lower bound up to, but not including, the upper bound. Bounds given in reverse are swapped. |
| ChartBase.Plot | react/src/ChartBase.tsx:248-249 | The plot starts at the adjusted left margin and the top margin. Its width and height fill the svg up to the right and bottom margins. |
| ChartBase.MoveCrosshair | react/src/ChartBase.tsx:286-303 | A crosshair is only ever the pointer itself. On a plot of non-negative size, it is set exactly when the pointer lies inside the plot. |
| ChartBase.NegativeWidthCrosshair | react/src/ChartBase.tsx:294-300 | On a chart narrower than its margins, `inRange` swaps its bounds, so a crosshair still shows left of the margin. |
| ThemeGetter.SimpleGet | react/src/theme/utils/createThemeGetter.ts:15-17 | A present key gives its table value, and a missing key gives undefined. |
| ThemeGetter.Parts | react/src/theme/utils/createThemeGetter.ts:40-42 | The nil filter never yields more parts than arguments. |
| ThemeGetter.PartsCount | react/src/theme/utils/createThemeGetter.ts:40-42 | There is one part per argument that is not nil. |
| ThemeGetter.PartsInOrder | react/src/theme/utils/createThemeGetter.ts:40-43 | When all arguments are given, the parts are their looked-up values, in argument order. |
| ThemeGetter.PartsOfFour | react/src/theme/utils/createThemeGetter.ts:39-44 | Top, right, bottom and left contribute in that order, each nil one contributing nothing. |
| ThemeGetter.MultiGet | react/src/theme/utils/createThemeGetter.ts:26-44 | A single argument gives its value alone, with no space. When no table value holds a space, splitting the result on spaces gives back the looked-up parts of the given arguments, in order. |
| ThemeGetter.TwoValueExample | react/src/theme/utils/createThemeGetter.ts:27 | The documented `spacing(4, 8)` gives "4px 8px". |
| ThemeGetter.FourValueExample | react/src/theme/utils/createThemeGetter.ts:29 | The documented `spacing(4, 0, 8, 16)` gives "4px 0 8px 16px". |
| Theme.SelectKey | react/src/theme/theme.tsx:33-37 | The key read is the default key or the light key. Outside light mode, or with no light key, it is the default key. |
| Theme.Color | react/src/theme/theme.tsx:33-40 | In light mode with a light key given, the light colour is read. Otherwise the default colour is read. |
| Theme.BoxShadow | react/src/theme/theme.tsx:41-47 | In light mode with a light key given, the light shadow is read. Otherwise the default shadow is read. |
| Theme.LightDark | react/src/theme/theme.tsx:66-68 | Light mode gives the first value, and every other mode the second. |
| Theme.ColorAgreesWithLightDark | react/src/theme/theme.tsx:33-47 | With a light key, `color` and `boxShadow` read the key `lightDark` picks. |
| Theme.NoLightKeyUsesDefault | react/src/theme/theme.tsx:34-46 | Without a light key, both lookups read the default key in every mode. |
| Theme.LightEntryIff | react/src/theme/theme.tsx:35-37 | The light key is read if and only if it is given and the mode is "light". |
| ThemeVariant.MakeThemeVariant | react/src/theme/utils/themeVariant.ts:45-50 | Running the thunk fails exactly for a nil prop, with the documented message. A known variant gives its styles, and an unknown name gives the styles of `undefined`. |
| ThemeVariant.OnlyNamedVariantUsed | react/src/theme/utils/themeVariant.ts:49 | Variant tables that agree on the named variant give the same result. |
| ThemeVariant.ConstructionIsLazy | react/src/theme/utils/themeVariant.ts:40-48 | Building the interpolation never fails, even for a nil prop. The error comes only when the thunk runs. |
| Breakpoints.Block | react/src/theme/config/breakpoints.ts:22-29 | Each entry's block opens with the media-query head for its first key. It closes with the declaration of the property at its first value and units. |
| Breakpoints.Fold | react/src/theme/config/breakpoints.ts:21-31 | No entries give no text. Otherwise the text opens with the first entry's block and closes with the last one's. |
| Breakpoints.BreakpointProps | react/src/theme/config/breakpoints.ts:20-32 | With no entries the text is empty. Otherwise it opens with the media-query head of the first entry. |
| Breakpoints.FoldAppend | react/src/theme/config/breakpoints.ts:21-31 | The text for two lists of entries joined is the first list's text followed by the second's. |
| Breakpoints.FoldBlocks | react/src/theme/config/breakpoints.ts:21-31 | The first entry contributes its block, followed by the text of the rest. |
| Breakpoints.MobileIsMaxWidth500 | react/src/theme/config/breakpoints.ts:35-39 | The mobile query is the head a 500-pixel max-width entry gets. |
| Breakpoints.BlockExample | react/src/theme/config/breakpoints.ts:17 | The documented entry `{ 800: 60 }` gives a block for 800 pixels setting the property to 60 in the given units. |
| Transitions.Transition | react/src/theme/config/transitions.ts:2-4 | The text is the property, "all" when omitted, then the duration, then "ease-in-out". |
| Transitions.TransitionParts | react/src/theme/config/transitions.ts:2-4 | For a property and duration without spaces, splitting the text on spaces gives those three parts back. |
| Transitions.Fast | react/src/theme/config/transitions.ts:2 | `fast` with no property is "all 0.1s ease-in-out". A property without spaces splits back into itself, "0.1s" and "ease-in-out". |
| Transitions.Medium | react/src/theme/config/transitions.ts:3 | `medium` with no property is "all 0.2s ease-in-out". A property without spaces splits back into itself, "0.2s" and "ease-in-out". |
| Transitions.Slow | react/src/theme/config/transitions.ts:4 | `slow` with no property is "all 0.3s ease-in-out". A property without spaces splits back into itself, "0.3s" and "ease-in-out". |
| JsText.NumberOf | react/queries/locations.ts:52 | A blank text reads as 0. Any other text that is not a trimmed, optionally signed run of digits reads as NaN. |
| JsText.NumberOfDigitText | react/queries/locations.ts:52 | A run of digits reads as its value. |
| JsText.NumberOfNegated | react/queries/locations.ts:52 | A minus sign before digits negates the value. |
| JsText.NumberOfIntToString | react/queries/locations.ts:52 | An integer written out reads back as that integer. |
| LocationsCache.ConnectionsFilter | react/queries/locations.ts:47-66 | There are three filters, for water, oil and gas outflow in that order, each ending at `Number(value)` within the distance. |
| LocationsCache.ConnectionDistance | react/queries/locations.ts:80-99 | Receipt points reach one hop, facility names two, and the extra location types five. Any other name is a plain meta filter. |
| LocationsCache.MetaOf | react/queries/locations.ts:101-104 | A plain entry keeps its name. `Tags` is matched as `["%%", value]` and every other name as its value. |
| LocationsCache.BaseMeta | react/queries/locations.ts:79-105 | There are never more meta filters than entries. |
| LocationsCache.Concat | react/queries/locations.ts:113-118 | Present additional filters are appended after the base ones. |
| LocationsCache.NonEmpty | react/queries/locations.ts:121-122 | A key is present exactly when its list is non-empty. |
| LocationsCache.MetaFilters | react/queries/locations.ts:107-124 | `locationsMeta` and `connections` are present exactly when non-empty, each the base list followed by the additional one. Every other additional key passes through. |
| LocationsCache.CreateLocationMetaFilters | react/queries/locations.ts:68-125 | The one-pass loop builds exactly the object above. |
| LocationsCache.ConnectionEntries | react/queries/locations.ts:79-99 | There are never more connection entries than entries. |
| LocationsCache.EntriesSplit | react/queries/locations.ts:79-105 | Every entry yields either three connection filters or one meta filter, never both. |
| LocationsCache.MetaEntriesArePlain | react/queries/locations.ts:94-104 | Every meta filter comes from an entry with no connection name, and a `Tags` filter is always the wrapped pair. |
| LocationsCache.BaseMetaAppend | react/queries/locations.ts:79-105 | The meta filters of two lists joined are those of each list, in order. |
| LocationsCache.BaseConnectionsAppend | react/queries/locations.ts:79-99 | The connection filters of two lists joined are those of each list, in order. |
| LocationsCache.ReceiptPointFilter | react/queries/locations.ts:80-85 | A receipt point gives one-hop connection filters and no meta key. |
| LocationsCache.TagFilter | react/queries/locations.ts:101-104 | A tag gives a single wrapped meta filter and no connection key. |
| LocationsCache.IdNumber | react/queries/locations.ts:584 | A numeric id reads as itself. |
| LocationsCache.FindById | react/queries/locations.ts:412-415 | The result is an updated location with the id, and exists exactly when one does. |
| LocationsCache.FindByIdFirst | react/queries/locations.ts:412-415 | The location found is the first with the id. |
| LocationsCache.MergeById | react/queries/locations.ts:410-418 | Length and ids are kept. Each location becomes the first update with its id, or stays as it is. |
| LocationsCache.MergeReplacesByFirstMatch | react/queries/locations.ts:516-521 | A merged location is unchanged when no update has its id, and otherwise is the first update that has it. |
| LocationsCache.MergeIdempotent | react/queries/locations.ts:410-418 | Merging the same updates twice changes nothing more. |
| LocationsCache.MergeWithNothing | react/queries/locations.ts:516-521 | Merging no updates keeps the list. |
| LocationsCache.WithoutId | react/queries/locations.ts:370 | No location of the id remains. Every other location is kept as often as it was, in its original order. |
| LocationsCache.ReplaceMeter | react/queries/locations.ts:369-372 | The meter is last and no earlier location has its id. The locations before it are the other locations, in their original order. Nothing new is added. |
| LocationsCache.MeterIdOnce | react/queries/locations.ts:369-372 | After the replacement, the meter's id occurs once, in last place. |
| LocationsCache.RemoveLocation | react/queries/locations.ts:581-585 | With nothing cached the result is empty. Otherwise exactly the locations whose `Number(id)` differs from the removed id are kept, each as often as before, in their original order. |
| LocationsCache.KeepAll | react/queries/locations.ts:582-584 | The filter keeps exactly the locations whose number differs from the removed id, each as often as before, in their original order. |
| LocationsCache.RemoveMatchesTextIds | react/queries/locations.ts:584 | The text id "7" is removed by 7, and a non-numeric id is never removed. |
| LocationsCache.ReplaceById | react/queries/locations.ts:661-670 | Every location with the new location's id is replaced by it, and the others are kept in place. |
| LocationsCache.ReplaceMatching | react/queries/locations.ts:660-670 | The `map` gives the replaced list. The found flag is set exactly when the id was cached. |
| LocationsCache.UpsertCache | react/queries/locations.ts:651-673 | The loop folds every fetched location into the cached list in order. |
| LocationsCache.UpsertStepPlaces | react/queries/locations.ts:655-672 | After one step, the new location is cached and every location with its id is it. |
| LocationsCache.UpsertStepKeeps | react/queries/locations.ts:655-672 | A step keeps every earlier position and its id, changing only locations of the new id. It appends only an id that was absent. |
| LocationsCache.UpsertStepIdempotent | react/queries/locations.ts:655-672 | Folding the same location in twice is folding it in once. |
| LocationsCache.UpsertKeepsUniqueIds | react/queries/locations.ts:650-677 | A cache with unique ids keeps unique ids. |
| LocationsCache.UpsertLastWins | react/queries/locations.ts:655-673 | The last fetched location of an id is the one cached for it. |
| LocationsCache.UpsertKeepsOthers | react/queries/locations.ts:661-670 | A cached location whose id nothing fetched has stays where it was. |
| LocationsCache.LocationStore.constructor | react/queries/locations.ts:142-143 | The store starts with the given caches and no backup. |
| LocationsCache.LocationStore.UpdateLocationData | react/queries/locations.ts:347-357 | A cached list gets the new locations appended. Without one, nothing changes. The backup is never touched. |
| LocationsCache.LocationStore.UpdateMeterLocationData | react/queries/locations.ts:364-377 | A cached list has the meter replace its namesakes, placed last. Without one, nothing changes. |
| LocationsCache.LocationStore.UpdateOnMutate | react/queries/locations.ts:397-431 | The previous list is handed back for rollback. With a cached list and updates, the list is merged by id, and capacities are invalidated exactly when some were inserted. Otherwise nothing changes. |
| LocationsCache.LocationStore.UpdateOnError | react/queries/locations.ts:432-440 | A previous list is written back to its query. Without one, nothing changes. |
| LocationsCache.LocationStore.QueriesData | react/queries/locations.ts:444-446 | The snapshot is the location queries as they are at that moment. |
| LocationsCache.LocationStore.RefreshAll | react/queries/locations.ts:441-483 | When the update names any location, every query that held data in the snapshot read before the fetch is set to that data merged by id with the refetched locations. Other queries keep their current value. Capacities are invalidated exactly when locations were named and capacities inserted. When no id was named, nothing changes. |
| LocationsCache.LocationStore.UpdateLocally | react/queries/locations.ts:504-531 | The first local edit backs up the cached list, or an empty one. Later edits keep that backup. A cached list is merged by id. |
| LocationsCache.LocationStore.Discard | react/queries/locations.ts:306-316 | A taken backup is written back to the query and then dropped. Without one, nothing changes. |
| LocationsCache.LocationStore.Remove | react/queries/locations.ts:573-588 | The query holds its list without the removed location, or an empty list when nothing was cached. The previous list is handed back. |
| LocationsCache.EditsThenDiscard | react/queries/locations.ts:306-316 | Any run of local edits followed by a discard restores the list cached before the first edit. |
| LocationsCache.DiscardWithoutCache | react/queries/locations.ts:510-514 | Editing a query with no data and then discarding leaves it holding an empty list. |
| LocationsCache.UpdateThenRollBack | react/queries/locations.ts:397-440 | An optimistic update followed by its error handler restores the cached list. |
| LocationsCache.LocationsCacheUpdater.constructor | react/queries/locations.ts:639 | The pending id set starts empty. |
| LocationsCache.LocationsCacheUpdater.Request | react/queries/locations.ts:680-683 | The requested ids join the pending set. |
| LocationsCache.LocationsCacheUpdater.StartFlush | react/queries/locations.ts:641-648 | Before its await, the flush reads the location queries as they are and fetches the ids pending at that moment. |
| LocationsCache.LocationsCacheUpdater.Flush | react/queries/locations.ts:650-677 | Every query of the snapshot is set to its snapshot list, or an empty one, with the fetched locations folded in, whatever it holds now. Other queries are kept. The pending set is cleared, ids requested during the fetch included, and the backup is untouched. |
| LocationsCache.FlushUninterrupted | react/queries/locations.ts:641-677 | With nothing happening during the fetch, the pending ids are fetched and cleared, and every query gets its list with the fetched locations folded in. |
| LocationsCache.RequestDuringFlushIsDropped | react/queries/locations.ts:641-683 | An id requested while the fetch is under way was not fetched, and it is no longer pending afterwards. |
| LocationsCache.WriteDuringFlushIsLost | react/queries/locations.ts:641-677 | Locations appended to a query during the fetch are overwritten: the query ends as its list before the fetch with the fetched locations folded in. |
| LocationsCache.WriteDuringRefreshIsLost | react/queries/locations.ts:441-483 | Likewise, an append during the refresh's fetch is overwritten by the merge of the earlier list. |

## Left out

- The GraphQL schema and execution, the WebSocket servers, Express, passport and the metrics route are outside the model. So are the `onSubscribe`, `onComplete`, `onOperationComplete` and `onDisconnect` hooks. Only the decisions listed above are modelled.
- Authentication (`authenticateAndSetContext`) and id generation (`uuid`) are parameters.
- The query cache middleware that runs before execution is not part of this model.
- The message broker and its async-iterator factory are outside the model. A binding is a value holding its topic, exchange and resolver.
- The exchange names come from a shared package that is not part of this model, so they are an enumeration here.
- `SegmentType.timeSeries` is a parameter of the resolver. The graph-id enumeration is written with its member names as values.
- The logger is shared by concurrent requests. The model runs one request at a time, which is what `HandleQuery`'s trace-id agreement assumes.
- fuzzysort's scoring is a parameter. Only the empty-search rule is modelled.
- `localeCompare` and date-fns `compareAsc` are parameters. The order lemmas assume they are total preorders.
- Floating point is not modelled. This covers NaN beyond "not a number", `parseFloat`, `Math.floor` of fractions, and the `* 1.1` axis headroom. Numbers are integers.
- JsText.NumberOf: reads decimal-integer texts only. Fractions, exponents, hexadecimal and `Infinity` read as NaN.
- SortByColumn.NumberSortOrder: promises an order only when no value converts to NaN. A NaN difference counts as equal to everything, so no order exists there.
- react-query's cache is modelled as a map from query keys to data. Prefix matching of keys and cancellation are not modelled. Invalidations are returned as flags.
- `getLocationsWithMetaTags`, the mutation server calls and `Promise.all` are outside the model. Fetched locations are passed in.
- `useLocationsFilters` and its `ignoreCategoryFilter` switch only wrap the filter builder in a memo, and are not modelled. The key of each query is a parameter.
- `extraLocationTypes` comes from a configuration module that is not part of this model, so it is a parameter.
- The 300 ms debounce of the cache updater is not modelled. `StartFlush` is the moment the timer fires, and `Flush` is the moment the fetch returns. Anything may happen in between, as the scenario methods show.
- The `setTimeout` that defers the local-data update after edits is not modelled.
- Object identity of rows and locations is modelled by value.
- React compares memo dependencies by identity. In `ColumnSorter.Render` the caller's `sameInputs` flag stands for `columns` and `data` being the objects of the last computation, and `sortingStamp` for the identity of `sorting`. The other memoised values (`sortingEnhancedColumns`, the filter-menu values) are pure in their dependencies and are modelled as functions.
- DataTable.CellsEdited: requires every edit to name a column of the table. Past the columns the source reads a property of `undefined`, which throws. Rows past the data are modelled.
- DataTable.SetField: record ids stay numbers, as the record type declares. Setting `id` to a text or to null leaves the record unchanged in the model, where lodash/fp `set` stores that value, so a second equal edit of an `id` text column is accepted again instead of being dropped.
- Column ids are plain property names. lodash's dotted paths in `get` and `set` are not modelled.
- Glide Data Grid's rendering, the cell formatter and `getCellData` are parameters. So are the `css` template tag, the ThemeProvider and the config tables for colours, spacing, radius, fonts and shadows. The getters are proved over any table.
- `Grid.tsx`, `react/queries/jobs.ts` and the end-to-end test helpers are not part of this model.
