# excel-compare backend core in Dafny

This project models the backend of excel-compare. The user uploads two spreadsheet files. The backend:

- diffs the two parsed workbooks cell by cell;
- caches a normalised header-plus-rows view of each workbook for thirty minutes under a comparison id;
- answers with the difference list and the first 25 rows of every sheet;
- serves later windows of one sheet from the cache.

The project has seven modules:

- `Types`: the parsed grid of a workbook, the difference record and the normalised views.
- `CellText`: A1 cell labels, decimal numerals and the string form of a cell value. The decimal numeral of a natural number (`NatToString`), the column letters (`ColumnLetters`) and the A1 label (`EncodeCell`) each come with a decoder and a round-trip lemma. The string form of a value (`ValueToString`) and of an integer (`IntToString`) have none; `ValueToString` cannot have one, since the string `"1"` and the number 1 both give `"1"`.
- `SheetOrder`: the order in which a JavaScript `Set` built from both sheet-name lists yields its names.
- `ExcelService`: `compareWorkbooks`, `extractWorkbookData` and `extractPaginatedData`. Each is an imperative method with the service's own loops, proved equal to a specification function.
- `DiffProperties`: what the difference list promises. That covers completeness per address, classification, symmetry under swapping the workbooks, grouping by sheet and row-major order.
- `Cache`: class `CacheService`, whose `entries` map is updated in place by `Set`, `Get`, `Cleanup`, `Clear` and `ClearAll`. Each method is proved against a function of the old map. Lemmas cover the TTL, strict expiry and runs of calls.
- `CompareController`: the two handlers as methods over a `CacheService`. They are proved against reply and cache-effect functions. This module also holds the page view, the first-page truncation and the end-to-end lemma linking an upload to a later page request.

A parsed workbook is a `Workbook` of sheet names and sheets. A sheet has an optional decoded `!ref` range and a map from zero-based addresses to values. A cell value is a string, an integer or a boolean. A cell the reader did not produce is simply absent from the map.

Behaviour of the code worth knowing:

- `compareWorkbooks` reads every address of the scanned rectangle straight from the sheet's cells, whatever that sheet's own range is. It does not treat addresses outside a sheet's range as absent.
- `extractWorkbookData` skips a sheet without `!ref` instead of emitting an empty sheet.
- The page handler does not reject `limit = 0`. A zero limit gives an empty window, with `hasMore` true exactly when `startRow` is below the total.
- A failure to delete the uploaded files answers 500, but the comparison has already been cached by then (`CompareSuccess`).

## Model

| member | source | states |
|---|---|---|
| SheetOrder.InsertionOrdered | backend/src/services/excelService.ts:18 | iterating `new Set(names)` gives each name once, at its first occurrence (`Dedup`) |
| SheetOrder.UnionOrderShape | backend/src/services/excelService.ts:18-20 | sheets are visited in this order: workbook1's names in order, then workbook2's names not seen before, in order; each name once, every name of either list included |
| ExcelService.SheetDifference | backend/src/services/excelService.ts:25-51 | a sheet only one side has gives an entry for that sheet, `added` or `removed`, with row 0, column 0, cell `N/A` and both values null |
| ExcelService.CellDifference | backend/src/services/excelService.ts:63-105 | a differing cell's entry carries the A1 label, one-based row and column, and old/new values; it is `added` iff old is absent, `removed` iff new is absent, `modified` iff both are present |
| ExcelService.CompareWorkbooks | backend/src/services/excelService.ts:14-112 | the method's result is the specification `Differences`: sheet after sheet in visiting order, one sheet-level entry or the cell scan |
| ExcelService.CompareSheetCells | backend/src/services/excelService.ts:54-108 | the nested row/column loops emit exactly `GridDiffs` over rows `0..max(e.r)` and columns `0..max(e.c)`, a missing `!ref` counting as A1 |
| ExcelService.SheetView | backend/src/services/excelService.ts:122-148 | a sheet's view keeps its name, has `Width` headers taken from row 0 and exactly `e.r` data rows (rows `1..e.r`); each row is as long as the headers |
| ExcelService.Headers | backend/src/services/excelService.ts:127-131 | `e.c-s.c+1` headers; the one at column c is the row-0 value as a string, or `Column {c+1}` when that cell is missing |
| ExcelService.RowCells | backend/src/services/excelService.ts:135-140 | a data row has one value per column of the range, and the empty string where a cell is missing |
| ExcelService.SheetsViewByName | backend/src/services/excelService.ts:118-120 | the workbook view has one sheet per listed name whose sheet has a range, in `SheetNames` order, under that name, built from that sheet |
| ExcelService.NamesWithRef | backend/src/services/excelService.ts:118-120 | a name is kept iff it is listed and its sheet has `!ref` |
| ExcelService.ExtractWorkbookData | backend/src/services/excelService.ts:115-152 | the loops build exactly `WorkbookView`, the view of every listed sheet with a range |
| ExcelService.PaginatedView | backend/src/services/excelService.ts:160-196 | empty page `{[],[],0,false}` for an unknown sheet or one without `!ref`; otherwise the headers, `totalRows = e.r`, `max(0, min(start+limit, e.r) - start)` rows equal to the same rows of the sheet's full view starting at `start`, and `hasMore` iff `start+limit < totalRows` |
| ExcelService.ExtractPaginatedData | backend/src/services/excelService.ts:154-197 | the loops build exactly `PaginatedView` |
| ExcelService.ReadHeaders | backend/src/services/excelService.ts:127-131 | the header loop builds exactly `Headers` |
| ExcelService.ReadRow | backend/src/services/excelService.ts:136-140 | the row loop builds exactly `RowCells` |
| CellText.EncodeDecodeCell | backend/src/services/excelService.ts:63 | decoding the A1 label of an address gives back the address |
| CellText.EncodeCellInjective | backend/src/services/excelService.ts:63 | distinct addresses get distinct labels |
| CellText.NotApplicableIsNoLabel | backend/src/services/excelService.ts:32 | the placeholder `N/A` of a sheet-level entry names no cell |
| CellText.ParseNatToString | backend/src/services/excelService.ts:63 | the decimal numeral of a number reads back as that number |
| CellText.LettersOfColumn | backend/src/services/excelService.ts:63 | the column letters of column c spell the one-based number c+1 in bijective base 26 |
| DiffProperties.CellCompleteness | backend/src/services/excelService.ts:58-71 | for a sheet both sides have, an address is reported exactly once if it lies in the scanned rectangle and its values differ, and never otherwise (equal values and two absent cells included) |
| DiffProperties.CellEntry | backend/src/services/excelService.ts:72-105 | the entry for a differing address is its `CellDifference`, classified added/removed/modified by which side lacks the cell |
| DiffProperties.GridDiffsShape | backend/src/services/excelService.ts:61-77 | every cell-level entry is the entry of its own address inside the rectangle, with row and column at least 1, and the entries ascend row-major |
| DiffProperties.MirrorSheetDiffs | backend/src/services/excelService.ts:72-105 | comparing the other way round gives, for each sheet, the mirrored entries in the same order (added and removed exchanged, old and new exchanged) |
| DiffProperties.SwapWorkbooks | backend/src/services/excelService.ts:14-112 | every entry of compare(A, B) has its mirror image in compare(B, A), and mirroring twice gives the entry back |
| DiffProperties.EntriesOfSheet | backend/src/services/excelService.ts:20-51 | the entries about a sheet are exactly that sheet's comparison; a sheet only one side has gets exactly one entry, `added` or `removed`, and no cell entries |
| DiffProperties.DifferencesOrdered | backend/src/services/excelService.ts:18-20 | the list is grouped by sheet in visiting order, and within a sheet both sides have, the cell entries ascend row-major |
| Cache.CacheService.Set | backend/src/services/cacheService.ts:14-25 | stores `{d1, d2, now, now+TTL}` under the id, replacing any previous entry, and then sweeps |
| Cache.CacheService.Get | backend/src/services/cacheService.ts:27-37 | answers null for an absent id; past `expiresAt` it deletes the entry and answers null; otherwise it answers the entry and leaves the map alone |
| Cache.CacheService.Cleanup | backend/src/services/cacheService.ts:39-46 | the loop over the entries leaves exactly the entries with `now <= expiresAt`, each unchanged |
| Cache.CacheService.Clear | backend/src/services/cacheService.ts:48-50 | removes only that id |
| Cache.CacheService.ClearAll | backend/src/services/cacheService.ts:52-54 | leaves the map empty |
| Cache.Sweep | backend/src/services/cacheService.ts:39-46 | an id survives the sweep iff it was present and not expired, and its entry is unchanged |
| Cache.SetStores | backend/src/services/cacheService.ts:12-21 | after `set`, the id holds `{d1, d2, timestamp=now, expiresAt=now+1800000}` unless the sweep's clock reading is past that expiry |
| Cache.SetThenGet | backend/src/services/cacheService.ts:14-36 | after `set` at `now`, `get` at any `t <= now+TTL` answers exactly `d1, d2` |
| Cache.GetAbsent | backend/src/services/cacheService.ts:28-29 | `get` of an absent id answers null and leaves the map unchanged |
| Cache.GetExpiry | backend/src/services/cacheService.ts:31-36 | past `expiresAt`, `get` deletes and answers null; expiry is strict, so at exactly `expiresAt` it still answers the entry |
| Cache.SetSweepsOthers | backend/src/services/cacheService.ts:14-46 | the sweep in `set` keeps every other entry that is live at the sweep instant, unchanged, and drops every other expired one |
| Cache.NoResurrection | backend/src/services/cacheService.ts:31-34 | once an id is absent, no run of calls without a `set` of that id brings it back, so `get` keeps answering null |
| Cache.ExpiredStaysGone | backend/src/services/cacheService.ts:31-34 | after `get` has deleted an expired entry, no later run without a `set` of that id can answer it again |
| Cache.GetLive | backend/src/services/cacheService.ts:14-36 | for entries stamped by `set`, `get` at `t` answers the entry iff the id is present and `t <= timestamp + TTL` |
| Cache.RunKeepsValid | backend/src/services/cacheService.ts:12-21 | every run of calls keeps `expiresAt = timestamp + TTL` for all entries |
| Cache.EntriesImmutable | backend/src/services/cacheService.ts:14-54 | an entry still present after a run without a `set` of its id is the one stored before |
| CompareController.Slice | backend/src/controllers/compareController.ts:118 | `slice` clamps both ends: length `max(0, min(end, len) - start)`, and element i is element `start+i` |
| CompareController.FindSheet | backend/src/controllers/compareController.ts:109-110 | null iff no sheet has the name; otherwise the first sheet under that name |
| CompareController.PageOf | backend/src/controllers/compareController.ts:116-121 | the page keeps the sheet's headers, has `totalRows = rows.length` and `min(limit, max(0, totalRows-start))` rows starting at `start`, with `hasMore` iff rows remain after the window |
| CompareController.PageViewShape | backend/src/controllers/compareController.ts:109-127 | a file's page is null iff no cached sheet has the name; otherwise it is the window of the first such sheet, with the length formula and the `hasMore` iff `start+limit < totalRows` |
| CompareController.FirstPage | backend/src/controllers/compareController.ts:39-53 | the upload answer keeps every cached sheet in order with its name and headers, and its first `min(25, len)` rows |
| CompareController.FirstPageIsDefaultPage | backend/src/controllers/compareController.ts:39-127 | a sheet's rows in the upload answer are the rows the page handler answers for it at `startRow=0, limit=25`; a name without a sheet is missing from both |
| CompareController.FindInWorkbookView | backend/src/services/excelService.ts:118-148 | in a workbook's view, the first sheet under a name is that sheet's view iff the name is listed and the sheet has a range; otherwise no view sheet has the name |
| CompareController.PageViewIsPaginatedView | backend/src/controllers/compareController.ts:109-127 | for a listed sheet with a range, the page handler's page over the cached view equals `extractPaginatedData` on the workbook; without a range the handler answers null |
| CompareController.CompareFiles | backend/src/controllers/compareController.ts:8-81 | the handler's answer and the new cache are those of `CompareReply` and `CompareEffect` |
| CompareController.CompareFailureLeavesCache | backend/src/controllers/compareController.ts:12-80 | a missing upload (400) or an unreadable file (500) leaves the cache untouched |
| CompareController.CompareSuccess | backend/src/controllers/compareController.ts:23-74 | once both files are read, the two views are cached under the clock-derived id, after the diff; the answer succeeds iff deleting the uploads succeeds, and then carries the id and the whole difference list |
| CompareController.GetPaginatedData | backend/src/controllers/compareController.ts:84-142 | the handler's answer and the new cache are those of `PaginatedReply` and `PaginatedEffect` |
| CompareController.PaginatedErrors | backend/src/controllers/compareController.ts:88-102 | a missing or empty `comparisonId` or `sheet` answers 400 and leaves the cache untouched; otherwise the answer fails iff the id is unknown or expired, and then with status 404 and the `NOT_CACHED` text |
| CompareController.PaginatedHit | backend/src/controllers/compareController.ts:95-130 | for a live id, the answer carries the id, the sheet name, each file's page view of the cached workbook at the requested or default window, and that window |
| CompareController.PaginatedDefaults | backend/src/controllers/compareController.ts:86 | absent `startRow` and `limit` default to 0 and 25 |
| CompareController.UploadThenPage | backend/src/controllers/compareController.ts:36-127 | after a successful upload, a page request for the answered id within thirty minutes succeeds; each file's page at the default window carries the rows of the upload answer and equals `extractPaginatedData` on that workbook |

## Left out

- `readExcelFile` and the spreadsheet library (`XLSX.readFile`, `decode_range`, `encode_cell`) are not part of this model. A workbook arrives already parsed. Reading either file succeeds with a workbook or fails with a message (`Upload.parsed`). A parsed workbook lists only sheets it contains (`ReaderOutput`).
- The reader lists each sheet name once, since a workbook's sheet names are the keys of one object. `SheetOrder.UnionOrderShape` takes this as its `requires Distinct(names1)`; `ReaderOutput` does not state it.
- ExcelService.SheetDiffs: a sheet name is looked up as a map key, without inherited properties. In the code, `workbook.Sheets[name]` is a lookup on a plain JavaScript object. A name that only one workbook lists but that is an `Object.prototype` member (`constructor`, `toString`, `valueOf`, …) finds an inherited function on the other side. The code then scans cells instead of emitting one sheet-level entry. The model, and `DiffProperties.EntriesOfSheet`, give the single `added` or `removed` entry.
- `encode_cell` is the model's own function: column letters in bijective base 26, followed by the one-based row. Decoding it back is proved.
- Cell values are strings, integers and booleans. Floating-point numbers, dates, and `NaN !== NaN` are not modelled.
- `String(v)` of a number is modelled for integers only.
- Clocks are parameters. This covers `Date.now()` for the id and the `new Date()` readings in `set`, in its sweep, in `get` and in the answer's timestamp.
- `set` reads the clock twice, so `AfterSet` has a stamp instant and a sweep instant. Nothing is assumed about their order.
- The comparison id is the decimal numeral of the `Date.now()` reading. Two uploads in the same millisecond share an id, and the later one replaces the earlier entry, as `Set` states.
- Express request and response objects, multer, and the route wiring are left out. A handler returns a `Reply`: `{success: true, data}`, or an HTTP status with `error` and optional `details`.
- `fs.unlink` is left out. Its outcome is the parameter `unlinkError`.
- `parseInt` on query strings is left out, with its `NaN` and negative results and JavaScript `slice` with negative arguments. `startRow` and `limit` are natural numbers, or absent.
- A query parameter given as an array is left out. A parameter is present, absent, or the empty string (falsy).
- CompareController.GetPaginatedData: the 500 branch at backend/src/controllers/compareController.ts:136-141 is not reachable in the model, because every step it guards is total here.
- CompareController.CompareFiles: a failure inside `compareWorkbooks` or `extractWorkbookData` cannot happen in the model, because both are total over parsed workbooks. Only reading and unlinking fail.
- The module-level singleton `cacheService`, concurrent requests and the asynchronous interleaving of the handlers are left out. One `CacheService` object is passed to the handlers.
- JavaScript `Map` iteration order in `cleanup` is left out. `Cleanup` visits the entries in an arbitrary order, and its result does not depend on it.
- The frontend is not part of this model: the React components, `api.ts`, the upload checks and the diff-highlight indexing.
