/** The Excel service: the cell-by-cell diff of two parsed workbooks and the
    normalised header-plus-rows view of a workbook, whole or one window of
    rows at a time. Each operation is a method written as the service writes
    it (loops that push onto arrays), proved equal to a specification
    function; the properties of those functions are proved here and in
    DiffProperties. */
module ExcelService {
  import opened Types
  import opened CellText
  import opened SheetOrder

  // ---------------------------------------------------------------------
  // Specification of the diff

  /** The single entry for a sheet that only one workbook has. */
  function SheetDifference(sheetName: string, kind: DiffType): (d: Difference)
    requires kind != Modified
    ensures d.sheet == sheetName && d.kind == kind
    ensures d.row == 0 && d.column == 0 && d.cell == "N/A"
    ensures d.oldValue == None && d.newValue == None
  {
    var verb := if kind == Added then "added" else "removed";
    Difference(sheetName, "N/A", 0, 0, kind, None, None,
               "Sheet \"" + sheetName + "\" " + verb + " in new file")
  }

  /** The entry for a cell whose two values differ (`None` is an absent cell). */
  function CellDifference(sheetName: string, a: CellAddress, v1: Option<Value>, v2: Option<Value>): (d: Difference)
    requires v1 != v2
    ensures d.sheet == sheetName && d.cell == EncodeCell(a)
    ensures d.row == a.r + 1 && d.column == a.c + 1
    ensures d.oldValue == v1 && d.newValue == v2
    ensures d.kind == Added <==> v1.None? && v2.Some?
    ensures d.kind == Removed <==> v1.Some? && v2.None?
    ensures d.kind == Modified <==> v1.Some? && v2.Some?
  {
    var cellAddr := EncodeCell(a);
    if v1.None? then
      Difference(sheetName, cellAddr, a.r + 1, a.c + 1, Added, None, v2,
                 "Cell " + cellAddr + " added with value: " + ValueToString(v2.value))
    else if v2.None? then
      Difference(sheetName, cellAddr, a.r + 1, a.c + 1, Removed, v1, None,
                 "Cell " + cellAddr + " removed (was: " + ValueToString(v1.value) + ")")
    else
      Difference(sheetName, cellAddr, a.r + 1, a.c + 1, Modified, v1, v2,
                 "Cell " + cellAddr + " changed from \"" + ValueToString(v1.value)
                 + "\" to \"" + ValueToString(v2.value) + "\"")
  }

  /** `d` is the cell-level entry of its own address for these two sheets. */
  predicate IsCellDiffOf(d: Difference, sheetName: string, s1: Sheet, s2: Sheet)
  {
    d.row >= 1 && d.column >= 1 &&
    var a := CellAddress(d.row - 1, d.column - 1);
    Lookup(s1, a) != Lookup(s2, a) && d == CellDifference(sheetName, a, Lookup(s1, a), Lookup(s2, a))
  }

  /** Strict row-major order of one-based addresses. */
  predicate Before(d1: Difference, d2: Difference)
  {
    d1.row < d2.row || (d1.row == d2.row && d1.column < d2.column)
  }

  predicate Ascending(ds: seq<Difference>)
  {
    forall i, j :: 0 <= i < j < |ds| ==> Before(ds[i], ds[j])
  }

  /** What the comparison emits for one address: nothing when the two values
      are equal (both absent included), else one entry. */
  function CellDiff(sheetName: string, s1: Sheet, s2: Sheet, a: CellAddress): seq<Difference>
  {
    var v1, v2 := Lookup(s1, a), Lookup(s2, a);
    if v1 == v2 then [] else [CellDifference(sheetName, a, v1, v2)]
  }

  /** The entries of row `r` for columns `0 .. cols-1`, left to right. */
  function RowDiffs(sheetName: string, s1: Sheet, s2: Sheet, r: nat, cols: nat): (ds: seq<Difference>)
    ensures forall i :: 0 <= i < |ds| ==> ds[i].sheet == sheetName
  {
    if cols == 0 then []
    else RowDiffs(sheetName, s1, s2, r, cols - 1) + CellDiff(sheetName, s1, s2, CellAddress(r, cols - 1))
  }

  /** The entries of rows `0 .. rows-1`, each row over columns `0 .. cols-1`. */
  function GridDiffs(sheetName: string, s1: Sheet, s2: Sheet, rows: nat, cols: nat): (ds: seq<Difference>)
    ensures forall i :: 0 <= i < |ds| ==> ds[i].sheet == sheetName
  {
    if rows == 0 then []
    else GridDiffs(sheetName, s1, s2, rows - 1, cols) + RowDiffs(sheetName, s1, s2, rows - 1, cols)
  }

  /** The occupied range, or A1 for a sheet without `!ref`. */
  function RangeOrA1(sheet: Sheet): Range
  {
    if sheet.ref.Some? then sheet.ref.value else A1Range
  }

  /** The number of rows and of columns scanned for a sheet both workbooks have:
      the bounding rectangle from A1 to the larger of the two end cells. */
  function ScanRows(s1: Sheet, s2: Sheet): nat { Max(RangeOrA1(s1).e.r, RangeOrA1(s2).e.r) + 1 }

  function ScanCols(s1: Sheet, s2: Sheet): nat { Max(RangeOrA1(s1).e.c, RangeOrA1(s2).e.c) + 1 }

  /** Everything the comparison emits for one sheet name. */
  function SheetDiffs(sheetName: string, wb1: Workbook, wb2: Workbook): (ds: seq<Difference>)
    ensures forall i :: 0 <= i < |ds| ==> ds[i].sheet == sheetName
  {
    if sheetName !in wb1.sheets then [SheetDifference(sheetName, Added)]
    else if sheetName !in wb2.sheets then [SheetDifference(sheetName, Removed)]
    else
      var s1, s2 := wb1.sheets[sheetName], wb2.sheets[sheetName];
      GridDiffs(sheetName, s1, s2, ScanRows(s1, s2), ScanCols(s1, s2))
  }

  /** The entries of the listed sheets, sheet after sheet. */
  function DiffsOver(names: seq<string>, wb1: Workbook, wb2: Workbook): seq<Difference>
  {
    if names == [] then []
    else DiffsOver(names[..|names| - 1], wb1, wb2) + SheetDiffs(names[|names| - 1], wb1, wb2)
  }

  /** The whole difference list of `compareWorkbooks`. */
  function Differences(wb1: Workbook, wb2: Workbook): seq<Difference>
  {
    DiffsOver(UnionOrder(wb1.sheetNames, wb2.sheetNames), wb1, wb2)
  }

  // ---------------------------------------------------------------------
  // compareWorkbooks

  method CompareWorkbooks(workbook1: Workbook, workbook2: Workbook) returns (differences: seq<Difference>)
    ensures differences == Differences(workbook1, workbook2)
  {
    differences := [];
    var allSheetNames := InsertionOrdered(workbook1.sheetNames + workbook2.sheetNames);
    for i := 0 to |allSheetNames|
      invariant differences == DiffsOver(allSheetNames[..i], workbook1, workbook2)
    {
      var sheetName := allSheetNames[i];
      assert allSheetNames[..i + 1][..i] == allSheetNames[..i];
      if sheetName !in workbook1.sheets {
        differences := differences + [SheetDifference(sheetName, Added)];
      } else if sheetName !in workbook2.sheets {
        differences := differences + [SheetDifference(sheetName, Removed)];
      } else {
        var cellDiffs := CompareSheetCells(sheetName, workbook1.sheets[sheetName], workbook2.sheets[sheetName]);
        differences := differences + cellDiffs;
      }
    }
    assert allSheetNames[..|allSheetNames|] == allSheetNames;
  }

  /** The cell-by-cell scan of a sheet that both workbooks have. */
  method CompareSheetCells(sheetName: string, sheet1: Sheet, sheet2: Sheet) returns (differences: seq<Difference>)
    ensures differences == GridDiffs(sheetName, sheet1, sheet2, ScanRows(sheet1, sheet2), ScanCols(sheet1, sheet2))
  {
    differences := [];
    var range1, range2 := RangeOrA1(sheet1), RangeOrA1(sheet2);
    var maxRow := Max(range1.e.r, range2.e.r);
    var maxCol := Max(range1.e.c, range2.e.c);
    var row := 0;
    while row <= maxRow
      invariant row <= maxRow + 1
      invariant differences == GridDiffs(sheetName, sheet1, sheet2, row, maxCol + 1)
    {
      var col := 0;
      while col <= maxCol
        invariant col <= maxCol + 1
        invariant differences == GridDiffs(sheetName, sheet1, sheet2, row, maxCol + 1)
                                      + RowDiffs(sheetName, sheet1, sheet2, row, col)
      {
        var cellAddr := EncodeCell(CellAddress(row, col));
        var value1 := Lookup(sheet1, CellAddress(row, col));
        var value2 := Lookup(sheet2, CellAddress(row, col));
        if value1 != value2 {
          var d: Difference;
          if value1.None? && value2.Some? {
            d := Difference(sheetName, cellAddr, row + 1, col + 1, Added, None, value2,
              "Cell " + cellAddr + " added with value: " + ValueToString(value2.value));
          } else if value1.Some? && value2.None? {
            d := Difference(sheetName, cellAddr, row + 1, col + 1, Removed, value1, None,
              "Cell " + cellAddr + " removed (was: " + ValueToString(value1.value) + ")");
          } else {
            d := Difference(sheetName, cellAddr, row + 1, col + 1, Modified, value1, value2,
              "Cell " + cellAddr + " changed from \"" + ValueToString(value1.value)
              + "\" to \"" + ValueToString(value2.value) + "\"");
          }
          assert [d] == CellDiff(sheetName, sheet1, sheet2, CellAddress(row, col));
          differences := differences + [d];
        }
        assert RowDiffs(sheetName, sheet1, sheet2, row, col + 1)
            == RowDiffs(sheetName, sheet1, sheet2, row, col) + CellDiff(sheetName, sheet1, sheet2, CellAddress(row, col));
        col := col + 1;
      }
      row := row + 1;
    }
  }

  // ---------------------------------------------------------------------
  // Specification of the normalised view

  /** The number of columns of a range (`e.c - s.c + 1` for a decoded range). */
  function Width(range: Range): nat
  {
    if range.s.c <= range.e.c then range.e.c - range.s.c + 1 else 0
  }

  /** The header text of column `c`: the row-0 value as a string, or
      `Column {c+1}` where row 0 has no cell. */
  function HeaderText(sheet: Sheet, c: nat): string
  {
    match Lookup(sheet, CellAddress(0, c))
    case Some(v) => ValueToString(v)
    case None => "Column " + NatToString(c + 1)
  }

  /** A data cell of the view: its value, or the empty string for no cell. */
  function RowValue(sheet: Sheet, a: CellAddress): Value
  {
    match Lookup(sheet, a)
    case Some(v) => v
    case None => Str("")
  }

  function Headers(sheet: Sheet, range: Range): (h: seq<string>)
    ensures |h| == Width(range)
    ensures forall j :: 0 <= j < |h| ==> h[j] == HeaderText(sheet, range.s.c + j)
  {
    seq(Width(range), j requires 0 <= j => HeaderText(sheet, range.s.c + j))
  }

  /** Row `row` of the grid over the columns of the range. */
  function RowCells(sheet: Sheet, range: Range, row: nat): (cells: seq<Value>)
    ensures |cells| == Width(range)
    ensures forall j :: 0 <= j < |cells| ==> cells[j] == RowValue(sheet, CellAddress(row, range.s.c + j))
  {
    seq(Width(range), j requires 0 <= j => RowValue(sheet, CellAddress(row, range.s.c + j)))
  }

  /** The view of a sheet with a range: headers from row 0, then one data row
      for each of grid rows `1 .. e.r`. */
  function SheetView(name: string, sheet: Sheet, range: Range): (v: SheetData)
    ensures v.name == name && v.headers == Headers(sheet, range)
    ensures |v.rows| == range.e.r
    ensures forall i :: 0 <= i < |v.rows| ==> |v.rows[i]| == |v.headers|
    ensures forall i :: 0 <= i < |v.rows| ==> v.rows[i] == RowCells(sheet, range, i + 1)
  {
    SheetData(name, Headers(sheet, range), seq(range.e.r, i requires 0 <= i => RowCells(sheet, range, i + 1)))
  }

  /** The views of the listed sheets that have a range, in list order. */
  function SheetsView(names: seq<string>, wb: Workbook): seq<SheetData>
    requires forall name :: name in names ==> name in wb.sheets
  {
    if names == [] then []
    else
      var name := names[|names| - 1];
      var sheet := wb.sheets[name];
      SheetsView(names[..|names| - 1], wb) + (if sheet.ref.Some? then [SheetView(name, sheet, sheet.ref.value)] else [])
  }

  /** The result of `extractWorkbookData`. */
  function WorkbookView(wb: Workbook): WorkbookData
    requires WellFormed(wb)
  {
    WorkbookData(SheetsView(wb.sheetNames, wb))
  }

  /** The listed names whose sheets have a range, in list order. */
  function NamesWithRef(names: seq<string>, wb: Workbook): (r: seq<string>)
    requires forall name :: name in names ==> name in wb.sheets
    ensures forall x :: x in r <==> x in names && wb.sheets[x].ref.Some?
  {
    if names == [] then []
    else
      var name := names[|names| - 1];
      NamesWithRef(names[..|names| - 1], wb) + (if wb.sheets[name].ref.Some? then [name] else [])
  }

  /** The view has one sheet per listed name with a range, in `SheetNames`
      order, under that name and built from that sheet. */
  lemma {:induction false} SheetsViewByName(names: seq<string>, wb: Workbook)
    requires forall name :: name in names ==> name in wb.sheets
    ensures |SheetsView(names, wb)| == |NamesWithRef(names, wb)|
    ensures forall k :: 0 <= k < |SheetsView(names, wb)| ==>
      var name := NamesWithRef(names, wb)[k];
      SheetsView(names, wb)[k] == SheetView(name, wb.sheets[name], wb.sheets[name].ref.value)
  {
    if names != [] {
      SheetsViewByName(names[..|names| - 1], wb);
    }
  }

  /** The result of `extractPaginatedData`: the empty page for an unknown
      sheet or one without a range, else rows `start .. min(start+limit, e.r)-1`
      of the sheet's view. */
  function PaginatedView(wb: Workbook, sheetName: string, startRow: nat, limit: nat): (p: Page)
    ensures sheetName !in wb.sheets || wb.sheets[sheetName].ref.None? ==> p == Page([], [], 0, false)
    ensures sheetName in wb.sheets && wb.sheets[sheetName].ref.Some? ==>
      var sheet := wb.sheets[sheetName];
      var range := sheet.ref.value;
      && p.headers == Headers(sheet, range)
      && p.totalRows == range.e.r
      && |p.rows| == (if startRow < Min(startRow + limit, range.e.r) then Min(startRow + limit, range.e.r) - startRow else 0)
      && (p.hasMore <==> startRow + limit < p.totalRows)
      && forall i :: 0 <= i < |p.rows| ==> p.rows[i] == SheetView(sheetName, sheet, range).rows[startRow + i]
  {
    if sheetName !in wb.sheets || wb.sheets[sheetName].ref.None? then Page([], [], 0, false)
    else
      var sheet := wb.sheets[sheetName];
      var range := sheet.ref.value;
      var endRow := Min(startRow + limit, range.e.r);
      var rows := SheetView(sheetName, sheet, range).rows;
      Page(Headers(sheet, range), if startRow < endRow then rows[startRow..endRow] else [], range.e.r, endRow < range.e.r)
  }

  // ---------------------------------------------------------------------
  // extractWorkbookData and extractPaginatedData

  /** The header loop shared by both extractors. */
  method ReadHeaders(sheet: Sheet, range: Range) returns (headers: seq<string>)
    ensures headers == Headers(sheet, range)
  {
    headers := [];
    var col := range.s.c;
    while col <= range.e.c
      invariant range.s.c <= col && |headers| == col - range.s.c
      invariant col == range.s.c || col <= range.e.c + 1
      invariant forall j :: 0 <= j < |headers| ==> headers[j] == HeaderText(sheet, range.s.c + j)
    {
      var cell := Lookup(sheet, CellAddress(0, col));
      headers := headers + [if cell.Some? then ValueToString(cell.value) else "Column " + NatToString(col + 1)];
      col := col + 1;
    }
  }

  /** The row loop shared by both extractors. */
  method ReadRow(sheet: Sheet, range: Range, row: nat) returns (rowData: seq<Value>)
    ensures rowData == RowCells(sheet, range, row)
  {
    rowData := [];
    var col := range.s.c;
    while col <= range.e.c
      invariant range.s.c <= col && |rowData| == col - range.s.c
      invariant col == range.s.c || col <= range.e.c + 1
      invariant forall j :: 0 <= j < |rowData| ==> rowData[j] == RowValue(sheet, CellAddress(row, range.s.c + j))
    {
      var cell := Lookup(sheet, CellAddress(row, col));
      rowData := rowData + [if cell.Some? then cell.value else Str("")];
      col := col + 1;
    }
  }

  method ExtractWorkbookData(workbook: Workbook) returns (data: WorkbookData)
    requires WellFormed(workbook)
    ensures data == WorkbookView(workbook)
  {
    var sheets: seq<SheetData> := [];
    for k := 0 to |workbook.sheetNames|
      invariant sheets == SheetsView(workbook.sheetNames[..k], workbook)
    {
      var sheetName := workbook.sheetNames[k];
      var sheet := workbook.sheets[sheetName];
      assert workbook.sheetNames[..k + 1][..k] == workbook.sheetNames[..k];
      if sheet.ref.Some? {
        var range := sheet.ref.value;
        var headers := ReadHeaders(sheet, range);
        var rows: seq<seq<Value>> := [];
        for row := 1 to range.e.r + 1
          invariant |rows| == row - 1
          invariant forall i :: 0 <= i < |rows| ==> rows[i] == RowCells(sheet, range, i + 1)
        {
          var rowData := ReadRow(sheet, range, row);
          rows := rows + [rowData];
        }
        assert SheetData(sheetName, headers, rows) == SheetView(sheetName, sheet, range);
        sheets := sheets + [SheetData(sheetName, headers, rows)];
      }
    }
    assert workbook.sheetNames[..|workbook.sheetNames|] == workbook.sheetNames;
    data := WorkbookData(sheets);
  }

  method ExtractPaginatedData(workbook: Workbook, sheetName: string, startRow: nat, limit: nat) returns (page: Page)
    ensures page == PaginatedView(workbook, sheetName, startRow, limit)
  {
    if sheetName !in workbook.sheets || workbook.sheets[sheetName].ref.None? {
      return Page([], [], 0, false);
    }
    var sheet := workbook.sheets[sheetName];
    var range := sheet.ref.value;
    var headers := ReadHeaders(sheet, range);
    var rows: seq<seq<Value>> := [];
    var totalRows := range.e.r;
    var endRow := Min(startRow + limit, totalRows);
    var row := startRow + 1;
    while row <= endRow
      invariant startRow + 1 <= row
      invariant row <= Max(endRow, startRow) + 1
      invariant |rows| == row - startRow - 1
      invariant forall i :: 0 <= i < |rows| ==> rows[i] == RowCells(sheet, range, startRow + 1 + i)
    {
      var rowData := ReadRow(sheet, range, row);
      rows := rows + [rowData];
      row := row + 1;
    }
    ghost var all := SheetView(sheetName, sheet, range).rows;
    assert startRow < endRow ==> rows == all[startRow..endRow];
    assert startRow >= endRow ==> rows == [];
    page := Page(headers, rows, totalRows, endRow < totalRows);
  }
}
