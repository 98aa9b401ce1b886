/** Properties of the difference list of `compareWorkbooks`: each differing
    address of a sheet both workbooks have is reported exactly once and each
    agreeing address never; swapping the workbooks mirrors every entry; and
    the list is grouped by sheet in visiting order. */
module DiffProperties {
  import opened Types
  import opened CellText
  import opened SheetOrder
  import opened ExcelService

  // ---------------------------------------------------------------------
  // Completeness: exactly one entry per differing address

  /** How many entries of `ds` sit at the one-based address (row, column). */
  function CountAt(ds: seq<Difference>, row: nat, column: nat): nat
  {
    if ds == [] then 0
    else
      var last := ds[|ds| - 1];
      CountAt(ds[..|ds| - 1], row, column) + (if last.row == row && last.column == column then 1 else 0)
  }

  lemma {:induction false} CountAtAppend(a: seq<Difference>, b: seq<Difference>, row: nat, column: nat)
    ensures CountAt(a + b, row, column) == CountAt(a, row, column) + CountAt(b, row, column)
    decreases |b|
  {
    if b == [] {
      assert a + b == a;
    } else {
      assert (a + b)[..|a + b| - 1] == a + b[..|b| - 1];
      CountAtAppend(a, b[..|b| - 1], row, column);
    }
  }

  /** An address that is counted is held by some entry. */
  lemma {:induction false} CountedIsPresent(ds: seq<Difference>, row: nat, column: nat)
    requires CountAt(ds, row, column) > 0
    ensures exists i :: 0 <= i < |ds| && ds[i].row == row && ds[i].column == column
  {
    var last := ds[|ds| - 1];
    if !(last.row == row && last.column == column) {
      CountedIsPresent(ds[..|ds| - 1], row, column);
      var i :| 0 <= i < |ds| - 1 && ds[..|ds| - 1][i].row == row && ds[..|ds| - 1][i].column == column;
      assert ds[i] == ds[..|ds| - 1][i];
    }
  }

  predicate Differs(s1: Sheet, s2: Sheet, a: CellAddress)
  {
    Lookup(s1, a) != Lookup(s2, a)
  }

  /** A single address is counted once exactly when its values differ. */
  lemma CellDiffCount(sheetName: string, s1: Sheet, s2: Sheet, a: CellAddress, row: nat, column: nat)
    ensures CountAt(CellDiff(sheetName, s1, s2, a), row, column)
         == if row == a.r + 1 && column == a.c + 1 && Differs(s1, s2, a) then 1 else 0
  {
    if Differs(s1, s2, a) {
      var one := CellDiff(sheetName, s1, s2, a);
      assert one[..0] == [];
    }
  }

  /** The count step for one more column, stated over plain sequences. */
  lemma CountJoinColumn(before: seq<Difference>, one: seq<Difference>, s1: Sheet, s2: Sheet, r: nat, cols: nat, row: nat, column: nat)
    requires cols > 0
    requires CountAt(before, row, column)
          == if row == r + 1 && 1 <= column <= cols - 1 && Differs(s1, s2, CellAddress(r, column - 1)) then 1 else 0
    requires CountAt(one, row, column)
          == if row == r + 1 && column == cols && Differs(s1, s2, CellAddress(r, cols - 1)) then 1 else 0
    ensures CountAt(before + one, row, column)
         == if row == r + 1 && 1 <= column <= cols && Differs(s1, s2, CellAddress(r, column - 1)) then 1 else 0
  {
    CountAtAppend(before, one, row, column);
  }

  lemma {:induction false} RowDiffsCount(sheetName: string, s1: Sheet, s2: Sheet, r: nat, cols: nat, row: nat, column: nat)
    ensures CountAt(RowDiffs(sheetName, s1, s2, r, cols), row, column)
         == if row == r + 1 && 1 <= column <= cols && Differs(s1, s2, CellAddress(r, column - 1)) then 1 else 0
    decreases cols
  {
    if cols > 0 {
      var a := CellAddress(r, cols - 1);
      RowDiffsCount(sheetName, s1, s2, r, cols - 1, row, column);
      CellDiffCount(sheetName, s1, s2, a, row, column);
      CountJoinColumn(RowDiffs(sheetName, s1, s2, r, cols - 1), CellDiff(sheetName, s1, s2, a), s1, s2, r, cols, row, column);
    }
  }

  /** The count step for one more row, stated over plain sequences. */
  lemma CountJoinRows(above: seq<Difference>, last: seq<Difference>, s1: Sheet, s2: Sheet, rows: nat, cols: nat, row: nat, column: nat)
    requires rows > 0
    requires CountAt(above, row, column)
          == if 1 <= row <= rows - 1 && 1 <= column <= cols && Differs(s1, s2, CellAddress(row - 1, column - 1)) then 1 else 0
    requires CountAt(last, row, column)
          == if row == rows && 1 <= column <= cols && Differs(s1, s2, CellAddress(rows - 1, column - 1)) then 1 else 0
    ensures CountAt(above + last, row, column)
         == if 1 <= row <= rows && 1 <= column <= cols && Differs(s1, s2, CellAddress(row - 1, column - 1)) then 1 else 0
  {
    CountAtAppend(above, last, row, column);
  }

  lemma {:induction false} GridDiffsCount(sheetName: string, s1: Sheet, s2: Sheet, rows: nat, cols: nat, row: nat, column: nat)
    ensures CountAt(GridDiffs(sheetName, s1, s2, rows, cols), row, column)
         == if 1 <= row <= rows && 1 <= column <= cols && Differs(s1, s2, CellAddress(row - 1, column - 1)) then 1 else 0
    decreases rows
  {
    if rows > 0 {
      var above := GridDiffs(sheetName, s1, s2, rows - 1, cols);
      var last := RowDiffs(sheetName, s1, s2, rows - 1, cols);
      GridDiffsCount(sheetName, s1, s2, rows - 1, cols, row, column);
      RowDiffsCount(sheetName, s1, s2, rows - 1, cols, row, column);
      assert GridDiffs(sheetName, s1, s2, rows, cols) == above + last;
      CountJoinRows(above, last, s1, s2, rows, cols, row, column);
    }
  }

  /** A single address contributes at most its own entry. */
  lemma CellDiffShape(sheetName: string, s1: Sheet, s2: Sheet, a: CellAddress)
    ensures var ds := CellDiff(sheetName, s1, s2, a);
      |ds| <= 1 && forall i :: 0 <= i < |ds| ==> IsCellDiffOf(ds[i], sheetName, s1, s2) && ds[i].row == a.r + 1 && ds[i].column == a.c + 1
  {
    if Differs(s1, s2, a) {
      var d := CellDifference(sheetName, a, Lookup(s1, a), Lookup(s2, a));
      assert CellAddress(d.row - 1, d.column - 1) == a;
    }
  }

  /** A row scan extended by one column, stated over plain sequences. */
  lemma JoinColumn(before: seq<Difference>, one: seq<Difference>, sheetName: string, s1: Sheet, s2: Sheet, r: nat, cols: nat)
    requires cols > 0
    requires forall i :: 0 <= i < |before| ==>
      IsCellDiffOf(before[i], sheetName, s1, s2) && before[i].row == r + 1 && 1 <= before[i].column <= cols - 1
    requires Ascending(before)
    requires |one| <= 1 && forall i :: 0 <= i < |one| ==>
      IsCellDiffOf(one[i], sheetName, s1, s2) && one[i].row == r + 1 && one[i].column == cols
    ensures var ds := before + one;
      && (forall i :: 0 <= i < |ds| ==> IsCellDiffOf(ds[i], sheetName, s1, s2) && ds[i].row == r + 1 && 1 <= ds[i].column <= cols)
      && Ascending(ds)
  {
    var ds := before + one;
    forall i | 0 <= i < |ds|
      ensures IsCellDiffOf(ds[i], sheetName, s1, s2) && ds[i].row == r + 1 && 1 <= ds[i].column <= cols
    {
      if i < |before| { assert ds[i] == before[i]; } else { assert ds[i] == one[i - |before|]; }
    }
  }

  /** Every entry of a row scan is the entry of its own address, in that
      row, within the scanned columns; columns strictly ascend. */
  lemma {:induction false} RowDiffsShape(sheetName: string, s1: Sheet, s2: Sheet, r: nat, cols: nat)
    ensures var ds := RowDiffs(sheetName, s1, s2, r, cols);
      && (forall i :: 0 <= i < |ds| ==> IsCellDiffOf(ds[i], sheetName, s1, s2) && ds[i].row == r + 1 && 1 <= ds[i].column <= cols)
      && Ascending(ds)
    decreases cols
  {
    if cols > 0 {
      var a := CellAddress(r, cols - 1);
      RowDiffsShape(sheetName, s1, s2, r, cols - 1);
      CellDiffShape(sheetName, s1, s2, a);
      JoinColumn(RowDiffs(sheetName, s1, s2, r, cols - 1), CellDiff(sheetName, s1, s2, a), sheetName, s1, s2, r, cols);
    }
  }

  /** Every entry of a sheet scan is the entry of its own address within the
      scanned rectangle; addresses strictly ascend in row-major order. */
  lemma {:induction false} GridDiffsShape(sheetName: string, s1: Sheet, s2: Sheet, rows: nat, cols: nat)
    ensures var ds := GridDiffs(sheetName, s1, s2, rows, cols);
      && (forall i :: 0 <= i < |ds| ==> IsCellDiffOf(ds[i], sheetName, s1, s2) && 1 <= ds[i].row <= rows && 1 <= ds[i].column <= cols)
      && Ascending(ds)
    decreases rows
  {
    if rows > 0 {
      GridDiffsShape(sheetName, s1, s2, rows - 1, cols);
      RowDiffsShape(sheetName, s1, s2, rows - 1, cols);
      JoinRow(GridDiffs(sheetName, s1, s2, rows - 1, cols), RowDiffs(sheetName, s1, s2, rows - 1, cols), sheetName, s1, s2, rows, cols);
    }
  }

  /** A sheet scan extended by one row, stated over plain sequences. */
  lemma JoinRow(above: seq<Difference>, last: seq<Difference>, sheetName: string, s1: Sheet, s2: Sheet, rows: nat, cols: nat)
    requires rows > 0
    requires forall i :: 0 <= i < |above| ==>
      IsCellDiffOf(above[i], sheetName, s1, s2) && 1 <= above[i].row <= rows - 1 && 1 <= above[i].column <= cols
    requires Ascending(above)
    requires forall i :: 0 <= i < |last| ==>
      IsCellDiffOf(last[i], sheetName, s1, s2) && last[i].row == rows && 1 <= last[i].column <= cols
    requires Ascending(last)
    ensures var ds := above + last;
      && (forall i :: 0 <= i < |ds| ==> IsCellDiffOf(ds[i], sheetName, s1, s2) && 1 <= ds[i].row <= rows && 1 <= ds[i].column <= cols)
      && Ascending(ds)
  {
    var ds := above + last;
    forall i | 0 <= i < |ds|
      ensures IsCellDiffOf(ds[i], sheetName, s1, s2) && 1 <= ds[i].row <= rows && 1 <= ds[i].column <= cols
    {
      if i < |above| { assert ds[i] == above[i]; } else { assert ds[i] == last[i - |above|]; }
    }
  }

  /** For a sheet both workbooks have, the address `a` (zero-based) is reported
      exactly once when it lies in the scanned rectangle and its two values
      differ, and not at all otherwise (equal values and two absent cells). */
  lemma CellCompleteness(sheetName: string, wb1: Workbook, wb2: Workbook, a: CellAddress)
    requires sheetName in wb1.sheets && sheetName in wb2.sheets
    ensures var s1, s2 := wb1.sheets[sheetName], wb2.sheets[sheetName];
      CountAt(SheetDiffs(sheetName, wb1, wb2), a.r + 1, a.c + 1)
        == if a.r < ScanRows(s1, s2) && a.c < ScanCols(s1, s2) && Differs(s1, s2, a) then 1 else 0
  {
    var s1, s2 := wb1.sheets[sheetName], wb2.sheets[sheetName];
    GridDiffsCount(sheetName, s1, s2, ScanRows(s1, s2), ScanCols(s1, s2), a.r + 1, a.c + 1);
  }

  /** The entry reported for a differing address carries the address, its
      A1 label and the classification: absent then present is `added`
      (old `null`), present then absent is `removed` (new `null`), two
      different values is `modified`. */
  lemma CellEntry(sheetName: string, wb1: Workbook, wb2: Workbook, a: CellAddress)
    requires sheetName in wb1.sheets && sheetName in wb2.sheets
    requires var s1, s2 := wb1.sheets[sheetName], wb2.sheets[sheetName];
      a.r < ScanRows(s1, s2) && a.c < ScanCols(s1, s2) && Differs(s1, s2, a)
    ensures var s1, s2 := wb1.sheets[sheetName], wb2.sheets[sheetName];
      var v1, v2 := Lookup(s1, a), Lookup(s2, a);
      exists i :: 0 <= i < |SheetDiffs(sheetName, wb1, wb2)|
        && SheetDiffs(sheetName, wb1, wb2)[i] == CellDifference(sheetName, a, v1, v2)
        && SheetDiffs(sheetName, wb1, wb2)[i].kind == (if v1.None? then Added else if v2.None? then Removed else Modified)
  {
    var s1, s2 := wb1.sheets[sheetName], wb2.sheets[sheetName];
    var ds := GridDiffs(sheetName, s1, s2, ScanRows(s1, s2), ScanCols(s1, s2));
    assert ds == SheetDiffs(sheetName, wb1, wb2);
    CellCompleteness(sheetName, wb1, wb2, a);
    CountedIsPresent(ds, a.r + 1, a.c + 1);
    GridDiffsShape(sheetName, s1, s2, ScanRows(s1, s2), ScanCols(s1, s2));
    var i :| 0 <= i < |ds| && ds[i].row == a.r + 1 && ds[i].column == a.c + 1;
    CellDiffAt(ds[i], sheetName, s1, s2, a);
  }

  /** An entry of its own address at `a` is the classified entry of `a`. */
  lemma CellDiffAt(d: Difference, sheetName: string, s1: Sheet, s2: Sheet, a: CellAddress)
    requires IsCellDiffOf(d, sheetName, s1, s2) && d.row == a.r + 1 && d.column == a.c + 1
    ensures d == CellDifference(sheetName, a, Lookup(s1, a), Lookup(s2, a))
    ensures d.kind == (if Lookup(s1, a).None? then Added else if Lookup(s2, a).None? then Removed else Modified)
  {
    assert CellAddress(d.row - 1, d.column - 1) == a;
  }

  // ---------------------------------------------------------------------
  // Symmetry: swapping the workbooks mirrors every entry

  /** The entry that the swapped comparison reports in place of `d`:
      `added` and `removed` exchanged, old and new values exchanged, and the
      description rewritten to match. */
  function Mirror(d: Difference): Difference
  {
    if d.row >= 1 && d.column >= 1 && d.oldValue != d.newValue then
      CellDifference(d.sheet, CellAddress(d.row - 1, d.column - 1), d.newValue, d.oldValue)
    else if d.kind == Added then SheetDifference(d.sheet, Removed)
    else if d.kind == Removed then SheetDifference(d.sheet, Added)
    else d
  }

  function Mirrored(ds: seq<Difference>): (r: seq<Difference>)
    ensures |r| == |ds| && forall i :: 0 <= i < |ds| ==> r[i] == Mirror(ds[i])
  {
    seq(|ds|, i requires 0 <= i < |ds| => Mirror(ds[i]))
  }

  lemma MirroredAppend(a: seq<Difference>, b: seq<Difference>)
    ensures Mirrored(a + b) == Mirrored(a) + Mirrored(b)
  {
    assert forall i :: 0 <= i < |a| ==> (a + b)[i] == a[i];
    assert forall i :: |a| <= i < |a + b| ==> (a + b)[i] == b[i - |a|];
  }

  lemma MirrorCellDiff(sheetName: string, s1: Sheet, s2: Sheet, a: CellAddress)
    ensures CellDiff(sheetName, s2, s1, a) == Mirrored(CellDiff(sheetName, s1, s2, a))
  {
    var v1, v2 := Lookup(s1, a), Lookup(s2, a);
    if v1 != v2 {
      var d := CellDifference(sheetName, a, v1, v2);
      assert CellAddress(d.row - 1, d.column - 1) == a;
      assert Mirror(d) == CellDifference(sheetName, a, v2, v1);
    }
  }

  lemma {:induction false} MirrorRowDiffs(sheetName: string, s1: Sheet, s2: Sheet, r: nat, cols: nat)
    ensures RowDiffs(sheetName, s2, s1, r, cols) == Mirrored(RowDiffs(sheetName, s1, s2, r, cols))
    decreases cols
  {
    if cols > 0 {
      MirrorRowDiffs(sheetName, s1, s2, r, cols - 1);
      MirrorCellDiff(sheetName, s1, s2, CellAddress(r, cols - 1));
      MirroredAppend(RowDiffs(sheetName, s1, s2, r, cols - 1), CellDiff(sheetName, s1, s2, CellAddress(r, cols - 1)));
    }
  }

  lemma {:induction false} MirrorGridDiffs(sheetName: string, s1: Sheet, s2: Sheet, rows: nat, cols: nat)
    ensures GridDiffs(sheetName, s2, s1, rows, cols) == Mirrored(GridDiffs(sheetName, s1, s2, rows, cols))
    decreases rows
  {
    if rows > 0 {
      MirrorGridDiffs(sheetName, s1, s2, rows - 1, cols);
      MirrorRowDiffs(sheetName, s1, s2, rows - 1, cols);
      MirroredAppend(GridDiffs(sheetName, s1, s2, rows - 1, cols), RowDiffs(sheetName, s1, s2, rows - 1, cols));
    }
  }

  /** Comparing the other way round reports, for each sheet, the mirrored
      entries in the same order. */
  lemma MirrorSheetDiffs(sheetName: string, wb1: Workbook, wb2: Workbook)
    requires sheetName in wb1.sheets || sheetName in wb2.sheets
    ensures SheetDiffs(sheetName, wb2, wb1) == Mirrored(SheetDiffs(sheetName, wb1, wb2))
  {
    if sheetName in wb1.sheets && sheetName in wb2.sheets {
      var s1, s2 := wb1.sheets[sheetName], wb2.sheets[sheetName];
      MirrorGridDiffs(sheetName, s1, s2, ScanRows(s1, s2), ScanCols(s1, s2));
    }
  }

  /** Mirroring an entry the comparison reports twice gives it back. */
  lemma {:induction false} MirrorMirror(sheetName: string, wb1: Workbook, wb2: Workbook)
    ensures forall d :: d in SheetDiffs(sheetName, wb1, wb2) ==> Mirror(Mirror(d)) == d
  {
    if sheetName in wb1.sheets && sheetName in wb2.sheets {
      var s1, s2 := wb1.sheets[sheetName], wb2.sheets[sheetName];
      GridDiffsShape(sheetName, s1, s2, ScanRows(s1, s2), ScanCols(s1, s2));
    }
    forall d | d in SheetDiffs(sheetName, wb1, wb2)
      ensures Mirror(Mirror(d)) == d
    {
      if d.row != 0 {
        var a := CellAddress(d.row - 1, d.column - 1);
        var m := CellDifference(sheetName, a, d.newValue, d.oldValue);
        assert Mirror(d) == m;
        assert CellAddress(m.row - 1, m.column - 1) == a;
      }
    }
  }

  lemma {:induction false} InDiffsOver(names: seq<string>, wb1: Workbook, wb2: Workbook, d: Difference)
    ensures d in DiffsOver(names, wb1, wb2) <==> exists k :: 0 <= k < |names| && d in SheetDiffs(names[k], wb1, wb2)
  {
    if names != [] {
      var init := names[..|names| - 1];
      InDiffsOver(init, wb1, wb2, d);
      if d in SheetDiffs(names[|names| - 1], wb1, wb2) {
        assert d in DiffsOver(names, wb1, wb2);
      }
      if exists k :: 0 <= k < |init| && d in SheetDiffs(init[k], wb1, wb2) {
        var k :| 0 <= k < |init| && d in SheetDiffs(init[k], wb1, wb2);
        assert init[k] == names[k];
      }
    }
  }

  /** Swapping the workbooks: for every entry of compare(A, B), compare(B, A)
      reports its mirror image (an `added` cell citing V becomes a `removed`
      cell citing V at the same address, `modified` swaps old and new). */
  lemma SwapWorkbooks(wb1: Workbook, wb2: Workbook)
    requires WellFormed(wb1) && WellFormed(wb2)
    ensures forall d :: d in Differences(wb1, wb2) ==> Mirror(d) in Differences(wb2, wb1)
    ensures forall d :: d in Differences(wb1, wb2) ==> Mirror(Mirror(d)) == d
  {
    var order12 := UnionOrder(wb1.sheetNames, wb2.sheetNames);
    var order21 := UnionOrder(wb2.sheetNames, wb1.sheetNames);
    forall d | d in Differences(wb1, wb2)
      ensures Mirror(d) in Differences(wb2, wb1) && Mirror(Mirror(d)) == d
    {
      InDiffsOver(order12, wb1, wb2, d);
      var k :| 0 <= k < |order12| && d in SheetDiffs(order12[k], wb1, wb2);
      var name := order12[k];
      assert name in wb1.sheetNames + wb2.sheetNames;
      MirrorSheetDiffs(name, wb1, wb2);
      MirrorMirror(name, wb1, wb2);
      var i :| 0 <= i < |SheetDiffs(name, wb1, wb2)| && SheetDiffs(name, wb1, wb2)[i] == d;
      assert Mirror(d) in SheetDiffs(name, wb2, wb1);
      assert name in order21;
      var k' :| 0 <= k' < |order21| && order21[k'] == name;
      InDiffsOver(order21, wb2, wb1, Mirror(d));
    }
  }

  // ---------------------------------------------------------------------
  // Grouping and order by sheet

  /** The entries of `ds` about sheet `name`, in order. */
  function OfSheet(ds: seq<Difference>, name: string): seq<Difference>
  {
    if ds == [] then []
    else OfSheet(ds[..|ds| - 1], name) + (if ds[|ds| - 1].sheet == name then [ds[|ds| - 1]] else [])
  }

  lemma {:induction false} OfSheetAppend(a: seq<Difference>, b: seq<Difference>, name: string)
    ensures OfSheet(a + b, name) == OfSheet(a, name) + OfSheet(b, name)
    decreases |b|
  {
    if b == [] {
      assert a + b == a;
    } else {
      assert (a + b)[..|a + b| - 1] == a + b[..|b| - 1];
      OfSheetAppend(a, b[..|b| - 1], name);
    }
  }

  lemma {:induction false} OfSheetUniform(ds: seq<Difference>, x: string, name: string)
    requires forall i :: 0 <= i < |ds| ==> ds[i].sheet == x
    ensures OfSheet(ds, name) == if x == name then ds else []
  {
    if ds != [] {
      OfSheetUniform(ds[..|ds| - 1], x, name);
    }
  }

  lemma {:induction false} OfSheetDiffsOver(names: seq<string>, wb1: Workbook, wb2: Workbook, name: string)
    requires Distinct(names)
    ensures OfSheet(DiffsOver(names, wb1, wb2), name) == if name in names then SheetDiffs(name, wb1, wb2) else []
  {
    if names != [] {
      var init, x := names[..|names| - 1], names[|names| - 1];
      assert names == init + [x];
      assert Distinct(init) && x !in init;
      var before, last := DiffsOver(init, wb1, wb2), SheetDiffs(x, wb1, wb2);
      assert DiffsOver(names, wb1, wb2) == before + last;
      OfSheetDiffsOver(init, wb1, wb2, name);
      OfSheetStep(before, last, init, x, name, SheetDiffs(name, wb1, wb2));
    }
  }

  /** The filter step for one more sheet, stated over plain sequences. */
  lemma OfSheetStep(before: seq<Difference>, last: seq<Difference>, init: seq<string>, x: string, name: string, mine: seq<Difference>)
    requires x !in init
    requires forall i :: 0 <= i < |last| ==> last[i].sheet == x
    requires OfSheet(before, name) == if name in init then mine else []
    requires name == x ==> last == mine
    ensures OfSheet(before + last, name) == if name in init + [x] then mine else []
  {
    OfSheetAppend(before, last, name);
    OfSheetUniform(last, x, name);
  }

  /** The entries about one sheet are exactly what that sheet's comparison
      yields; in particular a sheet only one workbook has gets exactly one
      sheet-level entry (`added` when the first lacks it, `removed` when the
      second does) and no cell-level entry. */
  lemma EntriesOfSheet(wb1: Workbook, wb2: Workbook, name: string)
    ensures OfSheet(Differences(wb1, wb2), name)
         == if name in wb1.sheetNames || name in wb2.sheetNames then SheetDiffs(name, wb1, wb2) else []
    ensures (name in wb1.sheetNames || name in wb2.sheetNames) && name !in wb1.sheets ==>
      OfSheet(Differences(wb1, wb2), name) == [SheetDifference(name, Added)]
    ensures (name in wb1.sheetNames || name in wb2.sheetNames) && name in wb1.sheets && name !in wb2.sheets ==>
      OfSheet(Differences(wb1, wb2), name) == [SheetDifference(name, Removed)]
  {
    var order := UnionOrder(wb1.sheetNames, wb2.sheetNames);
    OfSheetDiffsOver(order, wb1, wb2, name);
    assert name in order <==> name in wb1.sheetNames + wb2.sheetNames;
  }

  /** Position of the first occurrence of `x` in `s`. */
  function IndexOf(s: seq<string>, x: string): (k: nat)
    requires x in s
    ensures k < |s| && s[k] == x
    ensures forall j :: 0 <= j < k ==> s[j] != x
  {
    if s[0] == x then 0 else 1 + IndexOf(s[1..], x)
  }

  lemma {:induction false} IndexOfExtend(p: seq<string>, x: string, y: string)
    requires y in p + [x]
    ensures IndexOf(p + [x], y) == if y in p then IndexOf(p, y) else |p|
  {
    if p != [] && p[0] != y {
      assert (p + [x])[1..] == p[1..] + [x];
      IndexOfExtend(p[1..], x, y);
    }
  }

  lemma {:induction false} DiffsOverOrdered(names: seq<string>, wb1: Workbook, wb2: Workbook)
    requires Distinct(names)
    ensures forall i :: 0 <= i < |DiffsOver(names, wb1, wb2)| ==> DiffsOver(names, wb1, wb2)[i].sheet in names
    ensures forall i, j :: 0 <= i < j < |DiffsOver(names, wb1, wb2)| ==>
      IndexOf(names, DiffsOver(names, wb1, wb2)[i].sheet) <= IndexOf(names, DiffsOver(names, wb1, wb2)[j].sheet)
  {
    if names != [] {
      var init, x := names[..|names| - 1], names[|names| - 1];
      assert init + [x] == names;
      assert Distinct(init);
      DiffsOverOrdered(init, wb1, wb2);
      var before, last := DiffsOver(init, wb1, wb2), SheetDiffs(x, wb1, wb2);
      var all := DiffsOver(names, wb1, wb2);
      assert all == before + last;
      forall i | 0 <= i < |all|
        ensures all[i].sheet in names
        ensures IndexOf(names, all[i].sheet) == if i < |before| then IndexOf(init, all[i].sheet) else |init|
      {
        if i < |before| {
          assert all[i] == before[i];
        } else {
          assert all[i] == last[i - |before|];
        }
        IndexOfExtend(init, x, all[i].sheet);
      }
    }
  }

  /** The list is grouped by sheet in visiting order (the first workbook's
      names, then the second's new ones), and within a sheet's cell-level
      entries the addresses strictly ascend row by row, then column by column. */
  lemma DifferencesOrdered(wb1: Workbook, wb2: Workbook)
    ensures var ds, order := Differences(wb1, wb2), UnionOrder(wb1.sheetNames, wb2.sheetNames);
      && (forall i :: 0 <= i < |ds| ==> ds[i].sheet in order)
      && (forall i, j :: 0 <= i < j < |ds| ==> IndexOf(order, ds[i].sheet) <= IndexOf(order, ds[j].sheet))
    ensures forall name :: name in wb1.sheets && name in wb2.sheets ==> Ascending(SheetDiffs(name, wb1, wb2))
  {
    DiffsOverOrdered(UnionOrder(wb1.sheetNames, wb2.sheetNames), wb1, wb2);
    forall name | name in wb1.sheets && name in wb2.sheets
      ensures Ascending(SheetDiffs(name, wb1, wb2))
    {
      var s1, s2 := wb1.sheets[name], wb2.sheets[name];
      GridDiffsShape(name, s1, s2, ScanRows(s1, s2), ScanCols(s1, s2));
    }
  }
}
