/** The compare controller: the upload handler that diffs two parsed
    workbooks, caches their views and answers with the first page of every
    sheet, and the page handler that answers a window of one cached sheet.
    The request and response objects become parameters and a `Reply`; the
    spreadsheet reader's outcome is given per upload, the clock readings are
    given as `Clocks`, and the outcome of deleting the uploaded files as
    `unlinkError`. */
module CompareController {
  import opened Types
  import opened CellText
  import opened ExcelService
  import opened Cache

  /** Rows of each sheet sent with the upload answer. */
  const FIRST_PAGE_ROWS: nat := 25

  /** Defaults of the `startRow` and `limit` query parameters. */
  const DEFAULT_START_ROW: nat := 0
  const DEFAULT_LIMIT: nat := 25

  const BAD_REQUEST: nat := 400
  const NOT_FOUND: nat := 404
  const SERVER_ERROR: nat := 500

  /** The `error` texts of the two handlers. */
  const UPLOAD_MISSING: string := "Please upload exactly 2 Excel files"
  const COMPARE_FAILED: string := "Failed to compare files"
  const PARAMS_MISSING: string := "Missing required parameters: comparisonId and sheet"
  const NOT_CACHED: string := "Comparison data not found. Please re-upload files."

  // ---------------------------------------------------------------------
  // Array helpers with JavaScript semantics

  /** `s.slice(start, end)` for non-negative arguments: both ends are clamped
      to the length, and an end before the start gives the empty array. */
  function Slice<T>(s: seq<T>, start: nat, end: nat): (r: seq<T>)
    ensures |r| == (if start < Min(end, |s|) then Min(end, |s|) - start else 0)
    ensures forall i :: 0 <= i < |r| ==> r[i] == s[start + i]
  {
    var b := Min(end, |s|);
    s[Min(start, b)..b]
  }

  /** The index `findIndex` returns for the first sheet named `name`, or the
      length when there is none. */
  function FirstIndex(sheets: seq<SheetData>, name: string): (k: nat)
    ensures k <= |sheets|
    ensures forall j :: 0 <= j < k ==> sheets[j].name != name
    ensures k < |sheets| ==> sheets[k].name == name
  {
    if sheets == [] then 0
    else if sheets[0].name == name then 0
    else 1 + FirstIndex(sheets[1..], name)
  }

  /** `sheets.find(s => s.name === name)`. */
  function FindSheet(sheets: seq<SheetData>, name: string): (r: Option<SheetData>)
    ensures r.None? <==> forall j :: 0 <= j < |sheets| ==> sheets[j].name != name
    ensures r.Some? ==> r.value.name == name && r.value == sheets[FirstIndex(sheets, name)]
  {
    var k := FirstIndex(sheets, name);
    if k < |sheets| then Some(sheets[k]) else None
  }

  // ---------------------------------------------------------------------
  // Page view and first-page truncation

  /** The page of a cached sheet the page handler answers. */
  function PageOf(sheet: SheetData, startRow: nat, limit: nat): (p: Page)
    ensures p.headers == sheet.headers && p.totalRows == |sheet.rows|
    ensures |p.rows| == Min(limit, if startRow < p.totalRows then p.totalRows - startRow else 0)
    ensures forall i :: 0 <= i < |p.rows| ==> p.rows[i] == sheet.rows[startRow + i]
    ensures p.hasMore <==> startRow + |p.rows| < p.totalRows
  {
    var rows := Slice(sheet.rows, startRow, startRow + limit);
    Page(sheet.headers, rows, |sheet.rows|, startRow + limit < |sheet.rows|)
  }

  /** One file's part of the page answer: null when no cached sheet has the
      name, else the page of the first one that has it. */
  function PageView(data: WorkbookData, sheetName: string, startRow: nat, limit: nat): Option<Page>
  {
    PageOrNull(FindSheet(data.sheets, sheetName), startRow, limit)
  }

  /** `sheet ? {headers, rows, totalRows, hasMore} : null`. */
  function PageOrNull(sheet: Option<SheetData>, startRow: nat, limit: nat): Option<Page>
  {
    if sheet.Some? then Some(PageOf(sheet.value, startRow, limit)) else None
  }

  /** A sheet as the upload answer carries it: name, headers, first rows. */
  function FirstPageSheet(sheet: SheetData): SheetData
  {
    SheetData(sheet.name, sheet.headers, Slice(sheet.rows, 0, FIRST_PAGE_ROWS))
  }

  /** The upload answer's copy of a workbook view. */
  function FirstPage(data: WorkbookData): (r: WorkbookData)
    ensures |r.sheets| == |data.sheets|
    ensures forall k :: 0 <= k < |r.sheets| ==>
      && r.sheets[k].name == data.sheets[k].name
      && r.sheets[k].headers == data.sheets[k].headers
      && r.sheets[k].rows == data.sheets[k].rows[..Min(FIRST_PAGE_ROWS, |data.sheets[k].rows|)]
  {
    WorkbookData(seq(|data.sheets|, k requires 0 <= k < |data.sheets| => FirstPageSheet(data.sheets[k])))
  }

  /** Looking a name up in the truncated copy finds the truncation of the
      sheet found in the full view, or nothing in both. */
  lemma {:induction false} FindInFirstPage(sheets: seq<SheetData>, name: string)
    ensures FindSheet(FirstPage(WorkbookData(sheets)).sheets, name)
         == (match FindSheet(sheets, name) case None => None case Some(s) => Some(FirstPageSheet(s)))
  {
    var firsts := FirstPage(WorkbookData(sheets)).sheets;
    FirstIndexOfMap(sheets, firsts, name);
  }

  lemma {:induction false} FirstIndexOfMap(sheets: seq<SheetData>, firsts: seq<SheetData>, name: string)
    requires |firsts| == |sheets|
    requires forall k :: 0 <= k < |sheets| ==> firsts[k] == FirstPageSheet(sheets[k])
    ensures FirstIndex(firsts, name) == FirstIndex(sheets, name)
    decreases |sheets|
  {
    if sheets != [] && sheets[0].name != name {
      FirstIndexOfMap(sheets[1..], firsts[1..], name);
    }
  }

  /** The rows the upload answer carries for a sheet are the rows the page
      handler answers for that sheet at `startRow = 0, limit = 25`, and the
      name, headers and total agree; a name without a cached sheet is
      missing from both. */
  lemma FirstPageIsDefaultPage(data: WorkbookData, sheetName: string)
    ensures var first := FindSheet(FirstPage(data).sheets, sheetName);
      var page := PageView(data, sheetName, DEFAULT_START_ROW, DEFAULT_LIMIT);
      && (first.None? <==> page.None?)
      && (first.Some? ==> first.value.name == sheetName
                          && first.value.headers == page.value.headers
                          && first.value.rows == page.value.rows)
  {
    FindInFirstPage(data.sheets, sheetName);
    var found := FindSheet(data.sheets, sheetName);
    if found.Some? {
      var p := PageOf(found.value, 0, 25);
      assert FirstPageSheet(found.value).rows == p.rows;
    }
  }

  // ---------------------------------------------------------------------
  // The page view over the views of `extractWorkbookData`

  /** In a workbook's view, the first sheet under a name is the view of
      that sheet, when the workbook lists the name and the sheet has a
      range; otherwise no sheet of the view has the name. */
  lemma FindInWorkbookView(wb: Workbook, sheetName: string)
    requires WellFormed(wb)
    ensures FindSheet(WorkbookView(wb).sheets, sheetName)
         == if sheetName in wb.sheetNames && wb.sheets[sheetName].ref.Some?
            then Some(SheetView(sheetName, wb.sheets[sheetName], wb.sheets[sheetName].ref.value))
            else None
  {
    var sheets := WorkbookView(wb).sheets;
    var names := NamesWithRef(wb.sheetNames, wb);
    SheetsViewByName(wb.sheetNames, wb);
    assert forall k :: 0 <= k < |sheets| ==> sheets[k].name == names[k];
    if sheetName in wb.sheetNames && wb.sheets[sheetName].ref.Some? {
      assert sheetName in names;
      var j :| 0 <= j < |names| && names[j] == sheetName;
      assert sheets[j].name == sheetName;
    } else {
      assert sheetName !in names;
    }
  }

  /** For a listed sheet, the page handler and `extractPaginatedData`
      answer the same page when the sheet has a range; without a range the
      page handler answers null where `extractPaginatedData` answers the
      empty page. */
  lemma PageViewIsPaginatedView(wb: Workbook, sheetName: string, startRow: nat, limit: nat)
    requires WellFormed(wb) && sheetName in wb.sheetNames
    ensures wb.sheets[sheetName].ref.Some? ==>
      PageView(WorkbookView(wb), sheetName, startRow, limit) == Some(PaginatedView(wb, sheetName, startRow, limit))
    ensures wb.sheets[sheetName].ref.None? ==>
      PageView(WorkbookView(wb), sheetName, startRow, limit) == None
      && PaginatedView(wb, sheetName, startRow, limit) == Page([], [], 0, false)
  {
    FindInWorkbookView(wb, sheetName);
    var sheet := wb.sheets[sheetName];
    if sheet.ref.Some? {
      var view := SheetView(sheetName, sheet, sheet.ref.value);
      var p, q := PageOf(view, startRow, limit), PaginatedView(wb, sheetName, startRow, limit);
      assert |p.rows| == |q.rows|;
      assert p.rows == q.rows;
    }
  }

  // ---------------------------------------------------------------------
  // Handlers

  /** One uploaded file: its original name and what the reader made of it. */
  datatype Upload = Upload(originalname: string, parsed: Result<Workbook>)

  /** The clock readings a comparison takes: `Date.now()` for the id, the
      cache's stamp and its sweep, and the answer's timestamp. */
  datatype Clocks = Clocks(idTime: nat, setTime: int, sweepTime: int, replyTime: int)

  /** A JSON answer: `{success: true, data}` or an error status with
      `{error, details?}`. */
  datatype Reply<+T> = Success(data: T) | Failure(status: nat, error: string, details: Option<string>)

  datatype ComparisonResult = ComparisonResult(
    id: string,
    file1Name: string,
    file2Name: string,
    differences: seq<Difference>,
    file1Data: WorkbookData,
    file2Data: WorkbookData,
    timestamp: int)

  datatype PaginatedResponse = PaginatedResponse(
    comparisonId: string,
    sheet: string,
    file1: Option<Page>,
    file2: Option<Page>,
    startRow: nat,
    limit: nat)

  /** The spreadsheet reader lists only sheets it has parsed. */
  predicate ReaderOutput(upload: Option<Upload>)
  {
    upload.Some? && upload.value.parsed.Ok? ==> WellFormed(upload.value.parsed.value)
  }

  /** The message with which reading a file fails. */
  function ReadError(message: string): string
  {
    "Failed to read Excel file: " + message
  }

  /** What the upload handler answers. */
  function CompareReply(upload1: Option<Upload>, upload2: Option<Upload>, clocks: Clocks, unlinkError: Option<string>): Reply<ComparisonResult>
    requires ReaderOutput(upload1) && ReaderOutput(upload2)
  {
    if upload1.None? || upload2.None? then Failure(BAD_REQUEST, UPLOAD_MISSING, None)
    else if upload1.value.parsed.Fail? then Failure(SERVER_ERROR, COMPARE_FAILED, Some(ReadError(upload1.value.parsed.message)))
    else if upload2.value.parsed.Fail? then Failure(SERVER_ERROR, COMPARE_FAILED, Some(ReadError(upload2.value.parsed.message)))
    else if unlinkError.Some? then Failure(SERVER_ERROR, COMPARE_FAILED, Some(unlinkError.value))
    else
      var wb1, wb2 := upload1.value.parsed.value, upload2.value.parsed.value;
      Success(ComparisonResult(NatToString(clocks.idTime), upload1.value.originalname, upload2.value.originalname,
                               Differences(wb1, wb2), FirstPage(WorkbookView(wb1)), FirstPage(WorkbookView(wb2)),
                               clocks.replyTime))
  }

  /** The cache after the upload handler. */
  function CompareEffect(m: Entries, upload1: Option<Upload>, upload2: Option<Upload>, clocks: Clocks): Entries
    requires ReaderOutput(upload1) && ReaderOutput(upload2)
  {
    if upload1.None? || upload2.None? || upload1.value.parsed.Fail? || upload2.value.parsed.Fail? then m
    else
      AfterSet(m, NatToString(clocks.idTime), WorkbookView(upload1.value.parsed.value),
               WorkbookView(upload2.value.parsed.value), clocks.setTime, clocks.sweepTime)
  }

  /** `compareFiles`: read, diff, cache the two views, answer with their first pages. */
  method CompareFiles(cache: CacheService, upload1: Option<Upload>, upload2: Option<Upload>,
                      clocks: Clocks, unlinkError: Option<string>) returns (reply: Reply<ComparisonResult>)
    requires cache.Valid() && ReaderOutput(upload1) && ReaderOutput(upload2)
    modifies cache
    ensures cache.Valid()
    ensures reply == CompareReply(upload1, upload2, clocks, unlinkError)
    ensures cache.entries == CompareEffect(old(cache.entries), upload1, upload2, clocks)
  {
    if upload1.None? || upload2.None? {
      return Failure(BAD_REQUEST, UPLOAD_MISSING, None);
    }
    var file1, file2 := upload1.value, upload2.value;
    if file1.parsed.Fail? {
      return Failure(SERVER_ERROR, COMPARE_FAILED, Some(ReadError(file1.parsed.message)));
    }
    var workbook1 := file1.parsed.value;
    if file2.parsed.Fail? {
      return Failure(SERVER_ERROR, COMPARE_FAILED, Some(ReadError(file2.parsed.message)));
    }
    var workbook2 := file2.parsed.value;

    var differences := CompareWorkbooks(workbook1, workbook2);
    var comparisonId := NatToString(clocks.idTime);

    var file1Data := ExtractWorkbookData(workbook1);
    var file2Data := ExtractWorkbookData(workbook2);
    cache.Set(comparisonId, file1Data, file2Data, clocks.setTime, clocks.sweepTime);

    var firstPageFile1 := FirstPage(file1Data);
    var firstPageFile2 := FirstPage(file2Data);

    if unlinkError.Some? {
      return Failure(SERVER_ERROR, COMPARE_FAILED, Some(unlinkError.value));
    }
    reply := Success(ComparisonResult(comparisonId, file1.originalname, file2.originalname,
                                      differences, firstPageFile1, firstPageFile2, clocks.replyTime));
  }

  /** A query parameter counts as missing when absent or empty (falsy). */
  predicate Missing(param: Option<string>)
  {
    param.None? || param.value == ""
  }

  function OrDefault(param: Option<nat>, default: nat): nat
  {
    if param.Some? then param.value else default
  }

  /** What the page handler answers. */
  function PaginatedReply(m: Entries, comparisonId: Option<string>, sheet: Option<string>,
                          startRow: Option<nat>, limit: Option<nat>, now: int): Reply<PaginatedResponse>
  {
    if Missing(comparisonId) || Missing(sheet) then
      Failure(BAD_REQUEST, PARAMS_MISSING, None)
    else
      match GetResult(m, comparisonId.value, now)
      case None => Failure(NOT_FOUND, NOT_CACHED, None)
      case Some(cached) =>
        var start, lim := OrDefault(startRow, DEFAULT_START_ROW), OrDefault(limit, DEFAULT_LIMIT);
        Success(PaginatedResponse(comparisonId.value, sheet.value,
                                  PageView(cached.file1Data, sheet.value, start, lim),
                                  PageView(cached.file2Data, sheet.value, start, lim),
                                  start, lim))
  }

  /** The cache after the page handler: untouched on a 400, else after `get`. */
  function PaginatedEffect(m: Entries, comparisonId: Option<string>, sheet: Option<string>, now: int): Entries
  {
    if Missing(comparisonId) || Missing(sheet) then m else AfterGet(m, comparisonId.value, now)
  }

  /** `getPaginatedData`. */
  method GetPaginatedData(cache: CacheService, comparisonId: Option<string>, sheet: Option<string>,
                          startRow: Option<nat>, limit: Option<nat>, now: int) returns (reply: Reply<PaginatedResponse>)
    requires cache.Valid()
    modifies cache
    ensures cache.Valid()
    ensures reply == PaginatedReply(old(cache.entries), comparisonId, sheet, startRow, limit, now)
    ensures cache.entries == PaginatedEffect(old(cache.entries), comparisonId, sheet, now)
  {
    var startRowNum := if startRow.Some? then startRow.value else DEFAULT_START_ROW;
    var limitNum := if limit.Some? then limit.value else DEFAULT_LIMIT;
    if Missing(comparisonId) || Missing(sheet) {
      return Failure(BAD_REQUEST, PARAMS_MISSING, None);
    }
    var cachedData := cache.Get(comparisonId.value, now);
    if cachedData.None? {
      return Failure(NOT_FOUND, NOT_CACHED, None);
    }
    var sheetName := sheet.value;
    var sheet1 := FindSheet(cachedData.value.file1Data.sheets, sheetName);
    var sheet2 := FindSheet(cachedData.value.file2Data.sheets, sheetName);
    var file1 := PageOrNull(sheet1, startRowNum, limitNum);
    var file2 := PageOrNull(sheet2, startRowNum, limitNum);
    reply := Success(PaginatedResponse(comparisonId.value, sheetName, file1, file2, startRowNum, limitNum));
  }

  // ---------------------------------------------------------------------
  // Properties of the two handlers

  /** The cache is written only once both files were read and compared: a
      missing upload or a file that cannot be read leaves it untouched and
      answers 400 or 500. */
  lemma CompareFailureLeavesCache(m: Entries, upload1: Option<Upload>, upload2: Option<Upload>, clocks: Clocks, unlinkError: Option<string>)
    requires ReaderOutput(upload1) && ReaderOutput(upload2)
    requires upload1.None? || upload2.None? || upload1.value.parsed.Fail? || upload2.value.parsed.Fail?
    ensures CompareEffect(m, upload1, upload2, clocks) == m
    ensures var r := CompareReply(upload1, upload2, clocks, unlinkError);
      r.Failure? && (r.status == 400 || r.status == 500)
      && (r.status == 400 <==> upload1.None? || upload2.None?)
  {
  }

  /** Once both files were read, the views are cached under the id made
      from the clock, whatever happens when deleting the uploads; the answer
      is a success exactly when that deletion succeeds, and then carries
      the whole difference list and the cache id. */
  lemma CompareSuccess(m: Entries, wb1: Workbook, wb2: Workbook, name1: string, name2: string, clocks: Clocks, unlinkError: Option<string>)
    requires WellFormed(wb1) && WellFormed(wb2)
    ensures var u1, u2 := Some(Upload(name1, Ok(wb1))), Some(Upload(name2, Ok(wb2)));
      var r := CompareReply(u1, u2, clocks, unlinkError);
      && CompareEffect(m, u1, u2, clocks) == AfterSet(m, NatToString(clocks.idTime), WorkbookView(wb1), WorkbookView(wb2), clocks.setTime, clocks.sweepTime)
      && (r.Success? <==> unlinkError.None?)
      && (r.Success? ==> r.data.id == NatToString(clocks.idTime) && r.data.differences == Differences(wb1, wb2))
  {
  }

  /** A missing `comparisonId` or `sheet` answers 400 and leaves the cache
      untouched; an unknown or expired id answers 404. */
  lemma PaginatedErrors(m: Entries, comparisonId: Option<string>, sheet: Option<string>, startRow: Option<nat>, limit: Option<nat>, now: int)
    ensures Missing(comparisonId) || Missing(sheet) ==>
      PaginatedReply(m, comparisonId, sheet, startRow, limit, now).Failure?
      && PaginatedReply(m, comparisonId, sheet, startRow, limit, now).status == 400
      && PaginatedEffect(m, comparisonId, sheet, now) == m
    ensures !Missing(comparisonId) && !Missing(sheet) ==>
      (PaginatedReply(m, comparisonId, sheet, startRow, limit, now).Failure?
       <==> comparisonId.value !in m || now > m[comparisonId.value].expiresAt)
    ensures !Missing(comparisonId) && !Missing(sheet) && PaginatedReply(m, comparisonId, sheet, startRow, limit, now).Failure? ==>
      PaginatedReply(m, comparisonId, sheet, startRow, limit, now) == Failure(NOT_FOUND, NOT_CACHED, None)
  {
  }

  /** A request for a live id answers, for each file, the page view of
      the cached workbook at the requested (or default) window. */
  lemma PaginatedHit(m: Entries, comparisonId: string, sheetName: string, startRow: Option<nat>, limit: Option<nat>, now: int)
    requires comparisonId != "" && sheetName != ""
    requires comparisonId in m && now <= m[comparisonId].expiresAt
    ensures var cached := m[comparisonId];
      var start, lim := OrDefault(startRow, DEFAULT_START_ROW), OrDefault(limit, DEFAULT_LIMIT);
      PaginatedReply(m, Some(comparisonId), Some(sheetName), startRow, limit, now)
        == Success(PaginatedResponse(comparisonId, sheetName,
                                     PageView(cached.file1Data, sheetName, start, lim),
                                     PageView(cached.file2Data, sheetName, start, lim), start, lim))
  {
  }

  /** Absent `startRow` and `limit` default to 0 and 25. */
  lemma PaginatedDefaults(m: Entries, comparisonId: Option<string>, sheet: Option<string>, now: int)
    ensures var r := PaginatedReply(m, comparisonId, sheet, None, None, now);
      r.Success? ==> r.data.startRow == 0 && r.data.limit == 25
  {
  }

  /** The page the handler answers for a file, with natural `startRow` and
      `limit`: null exactly when no cached sheet has the name, else a window
      of `min(limit, max(0, totalRows - startRow))` rows of the first such
      sheet starting at `startRow`, flagged `hasMore` exactly when rows
      remain past `startRow + limit`. */
  lemma PageViewShape(data: WorkbookData, sheetName: string, startRow: nat, limit: nat)
    ensures var p := PageView(data, sheetName, startRow, limit);
      && (p.None? <==> forall k :: 0 <= k < |data.sheets| ==> data.sheets[k].name != sheetName)
      && (p.Some? ==>
           var sheet := data.sheets[FirstIndex(data.sheets, sheetName)];
           && p.value.headers == sheet.headers
           && p.value.totalRows == |sheet.rows|
           && |p.value.rows| == Min(limit, if startRow < |sheet.rows| then |sheet.rows| - startRow else 0)
           && (forall i :: 0 <= i < |p.value.rows| ==> p.value.rows[i] == sheet.rows[startRow + i])
           && (p.value.hasMore <==> startRow + limit < |sheet.rows|))
  {
  }

  /** A file's sheet in the upload answer and its page answer agree:
      both missing, or the same name, headers and rows. */
  predicate AgreesWithFirstPage(first: Option<SheetData>, page: Option<Page>, sheetName: string)
  {
    && (first.None? <==> page.None?)
    && (first.Some? && page.Some? ==>
          first.value.name == sheetName && first.value.headers == page.value.headers && first.value.rows == page.value.rows)
  }

  /** End to end: after a successful upload, a page request for the
      answered id within the thirty minutes, at the default window, succeeds
      and answers for each file the rows the upload answer carried for that
      sheet; for a sheet the workbook lists, that page is what
      `extractPaginatedData` computes on the workbook. */
  lemma UploadThenPage(m: Entries, wb1: Workbook, wb2: Workbook, name1: string, name2: string,
                       clocks: Clocks, sheetName: string, now: int)
    requires WellFormed(wb1) && WellFormed(wb2) && sheetName != ""
    requires clocks.sweepTime <= clocks.setTime + TTL && now <= clocks.setTime + TTL
    ensures var u1, u2 := Some(Upload(name1, Ok(wb1))), Some(Upload(name2, Ok(wb2)));
      var upload := CompareReply(u1, u2, clocks, None);
      var page := PaginatedReply(CompareEffect(m, u1, u2, clocks), Some(upload.data.id), Some(sheetName), None, None, now);
      && page.Success?
      && AgreesWithFirstPage(FindSheet(upload.data.file1Data.sheets, sheetName), page.data.file1, sheetName)
      && AgreesWithFirstPage(FindSheet(upload.data.file2Data.sheets, sheetName), page.data.file2, sheetName)
      && (sheetName in wb1.sheetNames && wb1.sheets[sheetName].ref.Some? ==>
            page.data.file1 == Some(PaginatedView(wb1, sheetName, 0, 25)))
      && (sheetName in wb2.sheetNames && wb2.sheets[sheetName].ref.Some? ==>
            page.data.file2 == Some(PaginatedView(wb2, sheetName, 0, 25)))
  {
    var u1, u2 := Some(Upload(name1, Ok(wb1))), Some(Upload(name2, Ok(wb2)));
    var id := NatToString(clocks.idTime);
    var v1, v2 := WorkbookView(wb1), WorkbookView(wb2);
    CompareSuccess(m, wb1, wb2, name1, name2, clocks, None);
    var upload := CompareReply(u1, u2, clocks, None);
    assert upload.data.id == id;
    assert upload.data.file1Data == FirstPage(v1) && upload.data.file2Data == FirstPage(v2);
    var m' := AfterSet(m, id, v1, v2, clocks.setTime, clocks.sweepTime);
    assert CompareEffect(m, u1, u2, clocks) == m';
    SetThenGet(m, id, v1, v2, clocks.setTime, clocks.sweepTime, now);
    var cached := GetResult(m', id, now).value;
    PaginatedHit(m', id, sheetName, None, None, now);
    var page := PaginatedReply(m', Some(id), Some(sheetName), None, None, now);
    assert page.data.file1 == PageView(v1, sheetName, 0, 25);
    assert page.data.file2 == PageView(v2, sheetName, 0, 25);
    FirstPageIsDefaultPage(v1, sheetName);
    FirstPageIsDefaultPage(v2, sheetName);
    if sheetName in wb1.sheetNames {
      PageViewIsPaginatedView(wb1, sheetName, 0, 25);
    }
    if sheetName in wb2.sheetNames {
      PageViewIsPaginatedView(wb2, sheetName, 0, 25);
    }
  }
}
