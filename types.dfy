/** Data shapes shared by the services and the controller: the parsed grid
    of a workbook as the spreadsheet reader hands it over, the records of the
    difference list, and the normalised sheet view that is cached and paged. */
module Types {

  datatype Option<+T> = None | Some(value: T)

  datatype Result<+T> = Ok(value: T) | Fail(message: string)

  /** A cell value as the reader produces it. An absent cell is a missing key
      of the sheet's cell map, never a value of this type. */
  datatype Value = Str(s: string) | Num(n: int) | Bool(b: bool)

  /** A zero-based cell address (`{r, c}` of the spreadsheet library). */
  datatype CellAddress = CellAddress(r: nat, c: nat)

  /** A decoded `!ref` range: start cell `s` and end cell `e`, both inclusive. */
  datatype Range = Range(s: CellAddress, e: CellAddress)

  /** The single-cell range A1, used where a sheet has no `!ref`. */
  const A1Range := Range(CellAddress(0, 0), CellAddress(0, 0))

  /** One parsed worksheet: its occupied range, if any, and its cells. */
  datatype Sheet = Sheet(ref: Option<Range>, cells: map<CellAddress, Value>)

  /** A parsed workbook: the sheet names in file order and the sheets by name. */
  datatype Workbook = Workbook(sheetNames: seq<string>, sheets: map<string, Sheet>)

  /** Every listed sheet name has a sheet, as the reader guarantees. */
  predicate WellFormed(wb: Workbook)
  {
    forall name :: name in wb.sheetNames ==> name in wb.sheets
  }

  function Lookup(sheet: Sheet, a: CellAddress): Option<Value>
  {
    if a in sheet.cells then Some(sheet.cells[a]) else None
  }

  datatype DiffType = Added | Removed | Modified

  /** One entry of the difference list. `row` and `column` are one-based for
      cells and zero for a whole added or removed sheet; `None` is `null`. */
  datatype Difference = Difference(
    sheet: string,
    cell: string,
    row: nat,
    column: nat,
    kind: DiffType,
    oldValue: Option<Value>,
    newValue: Option<Value>,
    description: string)

  /** The normalised view of one sheet: header texts and data rows. */
  datatype SheetData = SheetData(name: string, headers: seq<string>, rows: seq<seq<Value>>)

  datatype WorkbookData = WorkbookData(sheets: seq<SheetData>)

  /** A window of data rows and whether rows remain after it. */
  datatype Page = Page(headers: seq<string>, rows: seq<seq<Value>>, totalRows: nat, hasMore: bool)

  function Max(a: nat, b: nat): nat { if a < b then b else a }

  function Min(a: nat, b: nat): nat { if a < b then a else b }
}
