# datatable-helper, modelled in Dafny

`datatable-helper.js` turns an HTML table into a server-side paginated,
sortable and searchable grid. `initDataTable` keeps the grid state in closure
variables: the current page, the page size, the sort column and direction, the
search text and the column keys. Each user event changes that state and calls
`fetchData`. Each response re-renders three things: the header (on every
response until one brings a record with keys), the body rows, and a pagination bar with a sliding window of at most five numbered
buttons. It also writes a "showing rows X to Y" summary. The rendered table can
be exported as CSV text.

The project models that core:

- `wrappers.dfy`, module `Wrappers`: the `Option` type.
- `pagination.dfy`, module `Pagination`: the page count and the button window
  of `updatePagination`. The bar is a sequence of abstract items (Previous,
  the "1" shortcut, ellipses, numbered buttons, the last-page shortcut, Next),
  rendered by a loop that is proved to build the specified sequence. The
  module also gives what each bar control does to the current page, and how
  many requests a click issues.
- `summary.dfy`, module `Summary`: the row range of `updateTableInfo`.
- `query.dfy`, module `Query`: the header-click sort toggle and the
  parameters of a request. The custom filters are spread last, so a filter
  named like a built-in parameter replaces it.
- `layout.dfy`, module `Layout`: the header and body rows as abstract cells,
  how many columns each row spans, and the text of every cell as the CSV
  export reads it.
- `csv.dfy`, module `Csv`: quoting and joining, the loop of
  `exportTableToCSV`, and a decoder. Decoding the export gives back every
  cell.
- `controller.dfy`, module `DataTable`: class `Controller`. Its fields are the
  closure state, the log of issued requests, the loader count and what is
  rendered. It has one method per handler. A response is applied by
  `Respond` whatever its data. Responses may come in any order, because any
  pending request may complete next.

Where the code and its descriptions differ, the model follows the code:

- `currentPage` is never clamped after a render. A page past the end stays
  current: its bar has no active button, and its summary range is empty.
- With zero pages, Next is not marked disabled (`currentPage === totalPages - 1`
  is false), although its click does nothing (`DisabledControls`).
- The "1" and last-page shortcuts each issue two requests (through `goToPage`
  and then `fetchData` again).

## Model

| member | source | states |
|---|---|---|
| Pagination.TotalPagesBounds | datatable-helper.js:172 | `Math.ceil(filtered / pageSize)` is the least number of `pageSize`-row pages holding all filtered rows: `filtered <= total*pageSize < filtered + pageSize` |
| Pagination.NoRowsNoPages | datatable-helper.js:172 | no filtered rows make zero pages |
| Pagination.PageWindow | datatable-helper.js:174-184 | `0 <= start <= end <= totalPages`; the window is `min(5, totalPages)` wide; it contains the current page whenever that page exists |
| Pagination.RenderPagination | datatable-helper.js:170-305 | the loop-built bar equals `Bar`: Previous, the "1" shortcut, the leading ellipsis, one button per window page in order, the trailing ellipsis, the last-page shortcut, Next |
| Pagination.BarNumberedButtons | datatable-helper.js:235-252 | a page has a numbered button iff it lies in the window; every numbered page exists; the buttons strictly increase |
| Pagination.BarActiveButton | datatable-helper.js:237 | at most one button is active, and it is the current page; an active button for the current page exists iff the current page exists |
| Pagination.BarShortcuts | datatable-helper.js:219-222 | the "1" shortcut appears iff `currentPage > 2`; the last-page shortcut appears iff `currentPage < totalPages - 3`, and it is labelled with the page count (lines 272, 282-285) |
| Pagination.BarEllipses | datatable-helper.js:225-233 | an ellipsis precedes all numbered buttons iff `startPage > 1`; one follows them all iff `endPage < totalPages` (lines 255-263) |
| Pagination.BarEnds | datatable-helper.js:187-202 | the bar starts with Previous, disabled iff on page 0, and ends with Next, disabled iff on page `totalPages - 1` (lines 288-305) |
| Pagination.EmptyBar | datatable-helper.js:170-305 | with no filtered rows, on any page, the bar is Previous (disabled iff on page 0), the "1" shortcut iff past the third page, and a Next that is not marked disabled; no numbered button, ellipsis or last-page shortcut |
| Pagination.ClickTarget | datatable-helper.js:193-303 | Previous, "1", a numbered button, last-page and Next move to `cp-1`, `0`, `i`, `totalPages-1` and `cp+1` under their guards; from an existing page every click lands on an existing page; a guarded control that fires always changes the page |
| Pagination.ClickRequests | datatable-helper.js:211-217 | a click issues no request iff its guard fails, two for the "1" and last-page shortcuts (lines 274-280), and never more than two |
| Pagination.Guards | datatable-helper.js:195-298 | the Previous handler does nothing iff on page 0; the Next handler does nothing on page `totalPages - 1`, exactly there when the page exists, and always with zero pages, where `currentPage === totalPages - 1` never holds |
| Pagination.DisabledControls | datatable-helper.js:288-303 | Previous is disabled iff its click does nothing; Next disabled implies its click does nothing, iff on an existing page; with no rows Next is not disabled yet does nothing |
| Summary.ShownRangeRows | datatable-helper.js:326-327 | `start >= 1`, `end <= filtered`, at most `pageSize` rows; a row number is in the range iff it is a filtered row on the current page |
| Summary.PageOfRowBounds | datatable-helper.js:326-327 | row `n` is on page `p` iff `p*pageSize < n <= (p+1)*pageSize` |
| Summary.ExistingPageRange | datatable-helper.js:326-327 | on an existing page the range is non-empty; every page but the last is full; the last ends at the last filtered row |
| Summary.SingleRowRange | datatable-helper.js:326-327 | page 0 of ten with one filtered row reads "1 to 1" |
| Summary.EmptyRange | datatable-helper.js:326-327 | with no filtered rows the first page reads "1 to 0" |
| Query.DirectionName | datatable-helper.js:14 | the direction is sent as "asc" or "desc", "asc" iff ascending |
| Query.Flip | datatable-helper.js:98 | flipping always changes the direction |
| Query.ClickHeader | datatable-helper.js:96-102 | the clicked column becomes the sort column; the same column reverses the direction; another column sorts ascending |
| Query.ClickSameHeaderTwice | datatable-helper.js:97-98 | two clicks on the sort column restore the order |
| Query.ClickOtherHeaderTwice | datatable-helper.js:97-102 | two clicks on another column sort it descending |
| Query.RequestParamsValues | datatable-helper.js:57-64 | the parameters are the five built-ins plus one per filter; filters override same-named built-ins; otherwise `start = currentPage*pageSize` and `length = pageSize`, with the search text and sort order |
| Layout.HeaderRow | datatable-helper.js:86-112 | the header has one cell more than there are keys, plus one with the action column: select-all, the keys in order, then "Aksi" |
| Layout.RecordRow | datatable-helper.js:138-153 | a record row is its checkbox, one value per header key in order (the field's text, or empty text when it is missing or null, line 145), then the action cell when there is one; it holds no placeholder |
| Layout.BodyRows | datatable-helper.js:126-156 | no records give one placeholder row spanning one column more than there are keys, plus one with the action column; otherwise one row per record, in order |
| Layout.SpanOfPlainRow | datatable-helper.js:138-153 | a row without a placeholder spans one column per cell |
| Layout.BodyMatchesHeader | datatable-helper.js:129 | every body row, the placeholder included, spans exactly as many columns as the header (lines 88-112) when an action column has its formatter |
| Layout.MissingFormatterShortRows | datatable-helper.js:149-153 | with the action column on but no formatter function, each record row is one column narrower than the header |
| Layout.Snapshot | datatable-helper.js:336-342 | the export sees the header row first, once built, then every body row, cell for cell; rows with cells give lines with cells |
| Csv.Escape | datatable-helper.js:342 | escaping adds exactly one character per double quote, and leaves a text without quotes unchanged |
| Csv.Export | datatable-helper.js:335-346 | the loop-built text equals `Encode`: the quoted fields joined by commas, the lines joined by line feeds |
| Csv.Unquote | datatable-helper.js:342 | a read field leaves a strictly shorter remainder |
| Csv.ParseLine | datatable-helper.js:343 | a read line has at least one cell and leaves a strictly shorter remainder |
| Csv.UnquoteEscape | datatable-helper.js:342 | undoubling the quotes of an escaped cell gives the cell back and stops at its closing quote |
| Csv.ParseLastField | datatable-helper.js:342 | a field with no comma after it reads as a line of its one cell |
| Csv.ParseFieldComma | datatable-helper.js:342-343 | a field, a comma and a line of cells read as the field's cell followed by those cells |
| Csv.ParseLineOfLine | datatable-helper.js:342-343 | a CSV line reads back as its cells, one per comma-separated field |
| Csv.ParseLinesOfEncode | datatable-helper.js:339-346 | the lines read back as the rows, one per line feed |
| Csv.DecodeEncode | datatable-helper.js:335-346 | decoding the export gives back every row and cell of a table whose rows all have cells |
| Csv.EmptyRowIsInvisible | datatable-helper.js:343-346 | an empty table and one empty row export the same text, so the round trip needs rows with cells |
| DataTable.InitialPageSize | datatable-helper.js:12 | the configured page size, or 10 when it is absent or zero: always positive, and the configured size when that is positive |
| DataTable.Controller.constructor | datatable-helper.js:11-17 | the initial state (page 0, column 0 ascending, empty search, no columns) and the first request of line 416 |
| DataTable.Controller.Fetch | datatable-helper.js:55-68 | one request carrying the current parameters is logged, and one loader is added |
| DataTable.Controller.SortBy | datatable-helper.js:96-104 | the order becomes `ClickHeader` of the old one, and one request follows |
| DataTable.Controller.PreviousPage | datatable-helper.js:193-200 | only once a bar is rendered; the page becomes the Previous target when its guard holds; the requests are those `ClickRequests` counts |
| DataTable.Controller.FirstPage | datatable-helper.js:211-217 | only when the rendered bar holds the "1" shortcut (line 219); the page becomes 0 when not already there, with two requests for page 0 |
| DataTable.Controller.GoToPage | datatable-helper.js:242-249 | a button offered on the bar is for an existing page; the page becomes it, with one request |
| DataTable.Controller.LastPage | datatable-helper.js:274-280 | only when the rendered bar holds the last-page shortcut (line 282); the page becomes `totalPages - 1` when before it, with two requests |
| DataTable.Controller.NextPage | datatable-helper.js:296-303 | only once a bar is rendered; the page advances by one when before the last page, with one request |
| DataTable.Controller.Search | datatable-helper.js:370-376 | the search text is set, the page resets to 0, and the new request carries `start = 0` and the text |
| DataTable.Controller.ChangePageSize | datatable-helper.js:378-384 | the size is set, the page resets to 0, and the new request carries `start = 0` and `length = size` |
| DataTable.Controller.ChangeFilter | datatable-helper.js:386-396 | the filter's value is set, the page resets to 0, and the new request carries `start = 0` and the value |
| DataTable.Controller.RenderTable | datatable-helper.js:72-73 | while no columns are known they become the first record's keys (none without records, lines 82-114) and the header row is theirs; the body is `BodyRows` of the records (lines 122-157); the sort column stays valid and each row spans the header's width |
| DataTable.Controller.UpdatePagination | datatable-helper.js:170-305 | the bar is `Bar` of the filtered count, and every numbered button is for an existing page |
| DataTable.Controller.UpdateTableInfo | datatable-helper.js:324-333 | the summary holds the displayed count, `ShownRange` for the current page, the total and the filtered count |
| DataTable.Controller.RenderCounts | datatable-helper.js:74-76 | the bar and page count for the filtered rows, `totalRecords` set to the response's total, and the summary built from it |
| DataTable.Controller.Respond | datatable-helper.js:71-79 | columns come from the first record while unknown; the body, bar and summary are rendered for the current state; one loader is removed; the page is not clamped |
| DataTable.Controller.Fail | datatable-helper.js:78-79 | a failed request changes nothing rendered and removes its loader |
| DataTable.Controller.ExportCsv | datatable-helper.js:335-346 | the CSV text is that of every rendered row, and it decodes back to exactly the cells' text |

## Left out

- DOM construction and lookup: element classes, styles, the loader overlay's
  markup, `innerHTML`/`textContent`. The rendered table and bar are abstract
  sequences of cells and items. A loader is a count.
- `fetch`, `URL`/`searchParams` and JSON parsing. A request is the map of
  parameters it would carry. Their order in the query string and the way
  numbers become text are not modelled. A response is a `Response` value
  given to `Respond`.
- The network's timing: responses can be applied in any order, and
  each applies to the state current at that moment. Which response belongs
  to which request is not tracked.
- A success handler that throws part-way (a response without `data`, say):
  `Fail` models the whole request failing, not a partial render.
- The select-all checkbox handler: the checked state of checkboxes is not
  modelled.
- How a custom filter's parameter name is derived from its element (the
  `name` attribute or the selector without `#`). The model starts from the
  resulting name-to-value map, and `ChangeFilter` changes one existing entry.
- `parseInt` of the page-size select, which can give NaN:
  `ChangePageSize` requires a positive size. A negative `options.pageSize` is
  likewise not modelled: the configured size is a natural number.
- The markup test on cell values: both branches give the same
  `innerHTML`, so a cell is its value text. `innerText` of cells that hold
  markup is taken to be that text, so the export does not strip tags.
- The Excel and PDF exports (external libraries), and the Blob and download
  link of the CSV export (browser I/O).
- The commented-out `changePage` and the old full pagination loop (dead code).
- The text of the summary line. `Info` holds the numbers it shows.
