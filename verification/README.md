# Flight telemetry viewer: CSV reader and zoom/pick controller

A Next.js page lets the user drop CSV flight logs (columns such as `Timestamp`,
`heading`, `speed`) and plots the first one as a line chart. The user drags across the
chart to zoom into a time window: the y-axis is then fitted to the `heading` values in
that window. Clicking a point records it as a picked point. A reusable `Linechart`
component has the same zoom logic, with small differences.

This project models the core of that behaviour:

- `Text`: the JavaScript string primitives the reader is built from. It has `trim`,
  using the full ECMAScript whitespace set, and `split` on one character. Its partner is
  `join`, and the two round-trip.
- `Uploader`: `csvToJson`. The input is trimmed and split into lines. The first line
  gives the header names. Every later line becomes a row keyed by exactly those names.
  A missing or blank cell is `null`. `Timestamp` cells go through `Date.parse` and every
  other column through `parseFloat`.
- `JsNumber` and `Axis`: JavaScript numbers, meaning finite values, the two infinities
  and NaN, with `<` false on NaN. On top of them come `Number(row[key])`, `slice`,
  `findIndex` and `getAxisYDomain`. The last one scans the rows from `Infinity` /
  `-Infinity`, so NaN values never move a bound.
- `ZoomGraph`: the zoom state record. It also holds the handler logic the page and the
  component share word for word: mouse-down, mouse-move, the selection check, endpoint
  ordering and reading the clicked row out of a click event.
- `Page`: the page as a state machine over `(jsonData, pickedPoints, zoomGraph)`, with
  `handleDataParsed`, `zoom`, `zoomOut` and `handleChartClick`.
- `Linechart`: the component's version of the same machine.
- `Versions`: how the two versions compare: their starting and zoomed-out states, their
  `zoom` with a dataset and before any upload, and their click handling.
- `Scenario`: end-to-end event sequences. A three-line `Timestamp,heading` file is uploaded, then
  a drag goes from the first to the last timestamp. One instance is the example log with
  headings 10, 20 and 15, which zooms the y-axis to (9, 21).

`Date.parse` and `parseFloat` are parameters of the model (`string -> Number`). The
scenario lemmas state what they are assumed to return on the cells involved.

Where the intended behaviour and the code disagree, the model follows the code:

- A failed zoom is meant to return the chart to the full range. In the code it never
  touches the view:
  - A degenerate selection only clears the drag markers.
  - When an endpoint has no exactly matching row, the page leaves its state exactly as
    it was, so the drag markers stay drawn. The component clears the markers.
  - In both versions an existing zoom stays in place.
- Before any upload, the page's `findIndex` on `undefined` gives `undefined`. That
  passes the `!== -1` test, so the zoom commits with the y-domain `[Infinity, -Infinity]`.
- The component's `zoomOut` does not give back its initial state. It sets the y-bounds
  to the `"dataMax+1"`/`"dataMin-1"` keywords, while the initial state has the two
  infinities.
- Picked points are appended without deduplication. The same point clicked twice is
  recorded twice.
- A timestamp label of `0` is falsy in JavaScript. A mouse-down on it does not start a
  drag.

## Model

| member | source | states |
|---|---|---|
| JsNumber.LessIsStrictTotalOrder | src/app/page.tsx:47-48 | JavaScript `<` is a strict total order on non-NaN numbers, and NaN is comparable to nothing |
| Text.Trim | src/components/Uploader/Uploader.tsx:39-43 | the result is an infix of the input with only whitespace cut off on either side, and it neither starts nor ends with whitespace |
| Text.TrimEmptyIff | src/components/Uploader/Uploader.tsx:43 | a piece trims to `''` exactly when it is all whitespace |
| Text.TrimIdempotent | src/components/Uploader/Uploader.tsx:40-43 | trimming an already trimmed string changes nothing |
| Text.TrimIgnoresTrailingWhitespace | src/components/Uploader/Uploader.tsx:39-43 | a trailing whitespace character, such as the `'\r'` of a CRLF line, never survives the trim |
| Text.Split | src/components/Uploader/Uploader.tsx:39-43 | the pieces number one more than the separators, no piece holds the separator, and joining them with the separator gives back the input |
| Text.SplitJoin | src/components/Uploader/Uploader.tsx:39-43 | splitting the join of separator-free pieces gives those pieces back |
| Text.JoinInjective | src/components/Uploader/Uploader.tsx:39-43 | separator-free pieces are determined by their join, so `split` has exactly one possible result |
| Text.SplitCons | src/components/Uploader/Uploader.tsx:39 | a separator-free first line splits off on its own, ahead of the pieces of the rest |
| Uploader.Reduce | src/components/Uploader/Uploader.tsx:45-58 | the keys are exactly the header names seen, and a repeated name holds the value converted from the cell at its last position |
| Uploader.RowFromLine | src/components/Uploader/Uploader.tsx:42-58 | every row has exactly the header names as keys, whatever the line holds |
| Uploader.CsvToJson | src/components/Uploader/Uploader.tsx:38-60 | one row per line after the header line, as many as the trimmed input has `'\n'`, each keyed by the trimmed header names and built from its own line |
| Uploader.RowValues | src/components/Uploader/Uploader.tsx:43-54 | a missing or blank cell gives `null`, a `Timestamp` cell gives `Date.parse` of the trimmed text, any other cell `parseFloat` of it |
| Uploader.CsvToJsonValues | src/components/Uploader/Uploader.tsx:38-60 | the same rule for row `k` of the parsed file, read off the comma pieces of data line `k` |
| Uploader.CellNullIffBlank | src/components/Uploader/Uploader.tsx:43 | a cell is `null` exactly when its piece is blank, and otherwise it is the trimmed piece |
| Uploader.CellIgnoresCarriageReturn | src/components/Uploader/Uploader.tsx:43 | a `'\r'` ending a piece does not change its cell |
| Uploader.BlankLineAllNull | src/components/Uploader/Uploader.tsx:42-58 | a blank line still yields a row, with every field `null` |
| Uploader.ReduceReadsFirstCells | src/components/Uploader/Uploader.tsx:45-47 | the row depends only on the cells at the header positions |
| Uploader.ExtraCellsIgnored | src/components/Uploader/Uploader.tsx:43-47 | comma-separated text past the last header's cell leaves the row unchanged |
| Uploader.SplitAppend | src/components/Uploader/Uploader.tsx:43 | text with a comma added between two parts splits into the pieces of each part |
| Uploader.QuotedCommaStillSplits | src/components/Uploader/Uploader.tsx:43 | quoting does not protect a comma: `"a,b"` becomes the two cells `"a` and `b"` |
| Uploader.CleanTrimmed | src/components/Uploader/Uploader.tsx:43 | a non-empty piece without surrounding whitespace is its own cell |
| Axis.FieldNumber | src/app/page.tsx:46 | `Number(d[key])` is NaN exactly when the key is missing or holds NaN, and `null` reads as 0 |
| Axis.Slice | src/app/page.tsx:43 | `slice(from, end)` has the rows from `from` up to the clamped end, and nothing when `from` is not below it |
| Axis.Extent | src/app/page.tsx:44-49 | the scan ends with the least and the greatest non-NaN value, or `Infinity`/`-Infinity` when there is none |
| Axis.BoundsUnique | src/app/page.tsx:44-49 | the least (greatest) non-NaN value is unique, so the scan's result is fully determined |
| Axis.AxisYDomain | src/components/Linechart.tsx:42-56 | the domain is the least non-NaN value minus the offset and the greatest plus the offset |
| Axis.NoNumbersGivesSentinels | src/components/Linechart.tsx:48-55 | a range with no number in it, being empty or all NaN, gives `[Infinity, -Infinity]` |
| Axis.FiniteDomain | src/components/Linechart.tsx:48-55 | over finite values the domain is attained: it is a value of the range minus the offset and another plus it, every value lying between those two |
| Axis.ExtremesOfFinite | src/components/Linechart.tsx:50-54 | a non-empty run of finite values has positions holding its least and greatest value |
| Axis.BoundsAttained | src/components/Linechart.tsx:50-54 | over finite values both bounds of the scan occur in the range |
| Axis.FindIndex | src/components/Linechart.tsx:77-78 | the first row whose timestamp is exactly the given one, and `None` (the source's `-1`) exactly when no row has it |
| ZoomGraph.ClickedRow | src/app/page.tsx:99-104 | a click resolves to a row exactly when there is a first payload entry carrying one, and it is that entry's row |
| ZoomGraph.MouseDownUpdate | src/app/page.tsx:119-123 | a truthy label starts a drag there; otherwise nothing changes; the view never changes |
| ZoomGraph.MouseMoveUpdate | src/app/page.tsx:124-128 | the drag end follows a truthy label only once a drag start is set; the view and the start never change |
| ZoomGraph.Ordered | src/app/page.tsx:65-67 | the endpoints are the same unordered pair, smaller first |
| Page.HandleDataParsed | src/app/page.tsx:38-40 | the dataset is appended after the earlier ones, and nothing else changes |
| Page.GetAxisYDomain | src/app/page.tsx:42-51 | with no dataset the domain is `[Infinity, -Infinity]`; otherwise it is the domain over the first dataset |
| Page.Zoom | src/app/page.tsx:53-85 | a degenerate selection only clears the markers; before any upload the zoom commits with the sentinel domain; a missed lookup leaves the state as it was; otherwise the view becomes the ordered endpoints and the heading domain between their first matches |
| Page.HandleChartClick | src/app/page.tsx:99-104 | the clicked row is appended, and a click with no row changes nothing |
| Page.ZoomDirectionIndependent | src/app/page.tsx:65-67 | dragging right to left gives the same view as dragging left to right |
| Page.ZoomReadsFirstDatasetOnly | src/app/page.tsx:69-70 | later uploads never change the outcome of a zoom |
| Page.ZoomOutResets | src/app/page.tsx:87-97 | zooming out gives the initial zoom state from any state, twice is once, and the datasets and picked points are untouched |
| Page.StepPreservesWellFormed | src/app/page.tsx:117-130 | every event keeps the x-range full or ascending, and never leaves a drag end without a drag start |
| Page.RunPreservesWellFormed | src/app/page.tsx:117-130 | the same holds for any run of events |
| Page.RunKeepsDatasets | src/app/page.tsx:38-40 | datasets are only ever appended, so the charted dataset never changes once there is one |
| Page.UploadsAppendInOrder | src/app/page.tsx:38-40 | a run of uploads appends the datasets in arrival order |
| Page.ClickTwiceRecordsTwice | src/app/page.tsx:99-104 | the same point clicked twice is recorded twice |
| Linechart.ZoomOut | src/components/Linechart.tsx:106-116 | zooming out gives the full x-range, no drag and the keyword y-bounds |
| Linechart.Zoom | src/components/Linechart.tsx:58-104 | the markers are cleared on every path; a degenerate selection or a missed lookup changes nothing else; otherwise the view becomes the ordered endpoints and the heading domain between their first matches |
| Linechart.HandleChartClick | src/components/Linechart.tsx:118-122 | `onPointClick` is called once, with the clicked row, exactly when the click resolves to a row |
| Linechart.ZoomDirectionIndependent | src/components/Linechart.tsx:71-74 | dragging right to left gives exactly the same state as dragging left to right |
| Linechart.ZoomOutIdempotent | src/components/Linechart.tsx:106-116 | zooming out twice is once, and its state differs from the initial state only in the y-bounds |
| Linechart.StepPreservesWellFormed | src/components/Linechart.tsx:133-150 | every event keeps the zoom state well formed, and only a click calls `onPointClick` |
| Versions.AgreeUnlessLookupMisses | src/components/Linechart.tsx:80-88 | on a degenerate selection or a successful lookup, page and component reach the same state |
| Versions.DifferOnLookupMiss | src/components/Linechart.tsx:80-88 | on a missed lookup the page keeps the markers and the component clears them, and the two states differ |
| Versions.DifferWithoutUpload | src/app/page.tsx:69-85 | before any upload the page commits the selection with the domain `[Infinity, -Infinity]` while the component over no rows only clears the markers; the two agree only if the view already was that commit |
| Versions.StartDiffersZoomOutAgrees | src/components/Linechart.tsx:32-40 | the page starts with the keyword y-bounds and the component with the two infinities, nothing else differs, and zooming out gives both the same state |
| Versions.ClickAppendsWhatIsForwarded | src/app/page.tsx:99-104 | the page appends to its picked points exactly the rows the component passes to `onPointClick` |
| Scenario.SplitFour | src/components/Uploader/Uploader.tsx:39 | four `'\n'`-free lines joined by `'\n'` split back into the four |
| Scenario.TelemetryLines | src/components/Uploader/Uploader.tsx:39 | the file splits into its header line and three data lines |
| Scenario.TelemetryHeaders | src/components/Uploader/Uploader.tsx:39-40 | the file has the headers `Timestamp` and `heading` and the three data lines |
| Scenario.NamesOfLine | src/components/Uploader/Uploader.tsx:40 | a header line of two plain names gives exactly those names |
| Scenario.TwoCellRow | src/components/Uploader/Uploader.tsx:42-58 | a two-cell line gives the row with the parsed timestamp and the parsed heading |
| Scenario.TelemetryRows | src/components/Uploader/Uploader.tsx:38-60 | the file gives three rows, each holding its line's parsed timestamp and heading |
| Scenario.LookupsOfThree | src/app/page.tsx:69-70 | in three rows the first and the last timestamp are found at their own rows, and the middle one too unless it repeats the first, where the first match wins |
| Scenario.DomainOfThree | src/app/page.tsx:42-51 | the heading domain over three rows is (least heading - 1, greatest heading + 1) |
| Scenario.DragOnDataset | src/app/page.tsx:53-85 | upload, mouse-down, mouse-move and mouse-up between two present timestamps commit the zoom between their first matches |
| Scenario.DragAcrossUpload | src/app/page.tsx:53-85 | upload the file and drag from its first to its last timestamp: the x-axis spans the two and the y-axis is (least heading - 1, greatest heading + 1) |
| Scenario.ExampleDrag | src/app/page.tsx:53-85 | for the example log with headings 10, 20 and 15, that drag zooms the y-axis to (9, 21) |

## Left out

- Reading files is not modelled. That covers the dropzone, `FileReader` and the `.csv` filter in Uploader.tsx, lines 23-36 and 64-76. A parsed file reaches the page as a `DataParsed` event, and several files arrive in whatever order the events list them.
- `Date.parse` and `parseFloat` are parameters, not models of the ECMAScript algorithms. So the calendar format and the numeric prefix grammar are not modelled.
- Floating point is not modelled. Finite numbers are mathematical reals, so the `- 1` and `+ 1` of the domain are exact. Timestamps and labels are integers, as `Date.parse` gives whole milliseconds.
- React scheduling is not modelled. Each event sees the state left by the one before. That is also how `onMouseMove` reads `zoomGraph.refAreaLeft`, assuming the chart re-renders between pointer events.
- Rendering is not modelled. That covers recharts, the `ReferenceArea` overlay, tick formatting, the tooltip and the picked-points list.
- The `animation` field is always `true` and nothing reads it, so it is dropped.
- The page stores the y-bounds as strings (`bottom.toString()`); the model keeps the number itself.
- `CsvRow` is an open map from header names to values. The declared seven fields are a type hint only, and a header such as `__proto__`, with its special object semantics, is treated like any other name.
- Drag markers hold only numbers or `""`. Comparisons between mixed strings and numbers cannot arise, so they are not modelled.
- `console.log` in Linechart.tsx (line 92) has no effect on the state.
- Axis.Slice: only non-negative arguments are modelled. The model calls `slice` only with `findIndex` results, which are never negative once both lookups succeed.
- Page.ZoomOut: its behaviour is stated through Page.ZoomOutResets rather than on the function itself.
