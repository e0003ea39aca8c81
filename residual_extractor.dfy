/**
 * The generic residual-table extractor: each worksheet is searched for a
 * header row holding all four lease terms (pattern 1, terms across) or all
 * four mileages (pattern 2, mileages across); the rates of the next nine
 * rows labelled with the other dimension make up the vehicle's table.
 */
module ResidualExtractor {
  import opened Wrappers
  import opened Cells
  import opened RateTables
  import Text
  import Dicts

  /** _normalize_vehicle_id: the sheet name with every space turned into '_', upper-cased. */
  function NormalizeVehicleId(sheetName: string): (id: string)
    ensures |id| == |sheetName|
    ensures forall i :: 0 <= i < |id| ==>
      id[i] == Text.UpperChar(if sheetName[i] == ' ' then '_' else sheetName[i])
    ensures ' ' !in id
  {
    Text.ReplaceByChar(sheetName, ' ', '_');
    Text.UpperKeepsAbsent(Text.Replace(sheetName, ' ', "_"), ' ');
    Text.Upper(Text.Replace(sheetName, ' ', "_"))
  }

  /** Pattern 1 has the terms across the header row, pattern 2 the mileages. */
  datatype Layout = TermsAcross | MileagesAcross

  /** The values the header row must hold. */
  function HeaderValues(p: Layout): seq<int> {
    if p == TermsAcross then StandardTerms else StandardMileages
  }

  /** The values that label the rows read after the header. */
  function LabelValues(p: Layout): seq<int> {
    if p == TermsAcross then StandardMileages else StandardTerms
  }

  /** Every one of the values is among the row's numeric cells. */
  predicate IsHeader(row: Row, values: seq<int>) {
    forall v :: v in values ==> exists j :: 0 <= j < |row| && row[j].Num? && row[j].value == v as real
  }

  /** period_cols / mileage_cols: each header value and the (0-based) column it stands in; a later column replaces an earlier one. */
  function ColumnMap(row: Row, values: seq<int>): Dicts.Dict<int, int>
    decreases |row|
  {
    if |row| == 0 then []
    else
      var cols := ColumnMap(row[..|row| - 1], values);
      var c := row[|row| - 1];
      if OneOf(c, values) then Dicts.Put(cols, Whole(c, values), |row| - 1) else cols
  }

  /** residual_data[term][mileage] = rate, creating the term's dictionary when it is missing. */
  function Store(t: RateTable, term: int, mileage: int, rate: real): RateTable {
    Dicts.Put(t, term, Dicts.Put(Dicts.Get(t, term).GetOr([]), mileage, rate))
  }

  /** The column map walked in order: every valid rate of the row is stored under the row's label. */
  function FillRow(p: Layout, t: RateTable, cols: Dicts.Dict<int, int>, row: Row, rowLabel: int): RateTable
    decreases |cols|
  {
    if |cols| == 0 then t
    else
      var t' := FillRow(p, t, cols[..|cols| - 1], row, rowLabel);
      var key := cols[|cols| - 1].0;
      var c := At(row, cols[|cols| - 1].1);
      if !IsRate(c) then t'
      else if p == TermsAcross then Store(t', key, rowLabel, c.value)
      else Store(t', rowLabel, key, c.value)
  }

  /**
   * One row after the header. It is read only when its first cell is one of
   * the label values; pattern 2 first resets the term's dictionary to {}.
   */
  function ReadRow(p: Layout, t: RateTable, cols: Dicts.Dict<int, int>, row: Row): RateTable {
    var first := At(row, 0);
    if !OneOf(first, LabelValues(p)) then t
    else
      var rowLabel := Whole(first, LabelValues(p));
      FillRow(p, if p == TermsAcross then t else Dicts.Put(t, rowLabel, []), cols, row, rowLabel)
  }

  /** Rows lo .. hi - 1 read in order into an empty table. */
  function ReadRows(p: Layout, grid: seq<Row>, cols: Dicts.Dict<int, int>, lo: nat, hi: nat): RateTable
    requires hi <= |grid|
    decreases hi
  {
    if hi <= lo then [] else ReadRow(p, ReadRows(p, grid, cols, lo, hi - 1), cols, grid[hi - 1])
  }

  /** One past the last row scanned after header row h: nine rows at most, never past the sheet. */
  function WindowEnd(grid: seq<Row>, h: nat): nat {
    if h + 10 <= |grid| then h + 10 else |grid|
  }

  /** The table read below header row h, with the columns of that header. */
  function Block(p: Layout, grid: seq<Row>, h: nat): RateTable
    requires h < |grid|
  {
    ReadRows(p, grid, ColumnMap(grid[h], HeaderValues(p)), h + 1, WindowEnd(grid, h))
  }

  /** The first header row from row `from` on whose block holds data, and that block. */
  function FirstTable(p: Layout, grid: seq<Row>, from: nat): Option<RateTable>
    decreases |grid| - from
  {
    if from >= |grid| then None
    else if IsHeader(grid[from], HeaderValues(p)) && Block(p, grid, from) != [] then Some(Block(p, grid, from))
    else FirstTable(p, grid, from + 1)
  }

  /** _extract_from_sheet: pattern 1 first, pattern 2 only when pattern 1 finds nothing. */
  function SheetTable(grid: seq<Row>): Option<RateTable> {
    match FirstTable(TermsAcross, grid, 0)
    case Some(t) => Some(t)
    case None => FirstTable(MileagesAcross, grid, 0)
  }

  // ----- the extractor's loops -----

  /** The column-index loop over the header row. */
  method ColumnIndex(row: Row, values: seq<int>) returns (cols: Dicts.Dict<int, int>)
    ensures cols == ColumnMap(row, values)
  {
    cols := [];
    for j := 0 to |row|
      invariant cols == ColumnMap(row[..j], values)
    {
      assert row[..j + 1][..j] == row[..j];
      if OneOf(row[j], values) {
        cols := Dicts.Put(cols, Whole(row[j], values), j);
      }
    }
    assert row[..|row|] == row;
  }

  /** The body of the loop over the rows after the header. */
  method ReadNextRow(p: Layout, t: RateTable, cols: Dicts.Dict<int, int>, row: Row) returns (out: RateTable)
    ensures out == ReadRow(p, t, cols, row)
  {
    out := t;
    var first := At(row, 0);
    if OneOf(first, LabelValues(p)) {
      var rowLabel := Whole(first, LabelValues(p));
      if p == MileagesAcross {
        out := Dicts.Put(out, rowLabel, []);
      }
      ghost var start := out;
      for i := 0 to |cols|
        invariant out == FillRow(p, start, cols[..i], row, rowLabel)
      {
        assert cols[..i + 1][..i] == cols[..i];
        var (key, j) := cols[i];
        var c := At(row, j);
        if IsRate(c) {
          if p == TermsAcross {
            out := Store(out, key, rowLabel, c.value);
          } else {
            out := Store(out, rowLabel, key, c.value);
          }
        }
      }
      assert cols[..|cols|] == cols;
    }
  }

  /** The header's column map, then at most the nine following rows. */
  method ReadBlock(p: Layout, grid: seq<Row>, h: nat) returns (t: RateTable)
    requires h < |grid|
    ensures t == Block(p, grid, h)
  {
    var cols := ColumnIndex(grid[h], HeaderValues(p));
    t := [];
    var next := h + 1;
    while next < h + 10 && next < |grid|
      invariant h + 1 <= next <= WindowEnd(grid, h)
      invariant t == ReadRows(p, grid, cols, h + 1, next)
    {
      t := ReadNextRow(p, t, cols, grid[next]);
      next := next + 1;
    }
  }

  /** _find_pattern_months_cols and _find_pattern_mileage_cols: return the first non-empty block. */
  method FindTable(p: Layout, grid: seq<Row>) returns (t: Option<RateTable>)
    ensures t == FirstTable(p, grid, 0)
    ensures t.Some? ==> t.value != [] && WellFormed(t.value)
  {
    var h := 0;
    while h < |grid|
      invariant 0 <= h <= |grid|
      invariant FirstTable(p, grid, 0) == FirstTable(p, grid, h)
    {
      if IsHeader(grid[h], HeaderValues(p)) {
        var block := ReadBlock(p, grid, h);
        if block != [] {
          BlockWellFormed(p, grid, h);
          return Some(block);
        }
      }
      h := h + 1;
    }
    return None;
  }

  /** _extract_from_sheet. */
  method ExtractFromSheet(grid: seq<Row>) returns (t: Option<RateTable>)
    ensures t == SheetTable(grid)
    ensures t.Some? ==> t.value != [] && WellFormed(t.value)
  {
    t := FindTable(TermsAcross, grid);
    if t.None? {
      t := FindTable(MileagesAcross, grid);
    }
  }

  /** extract_all_vehicles: every sheet with a table is stored under its normalised name. */
  method ExtractAllVehicles(sheets: seq<(string, seq<Row>)>) returns (all: Dicts.Dict<string, RateTable>)
    ensures all == AllVehicles(sheets)
  {
    all := [];
    for i := 0 to |sheets|
      invariant all == AllVehicles(sheets[..i])
    {
      assert sheets[..i + 1][..i] == sheets[..i];
      var (title, grid) := sheets[i];
      var table := ExtractFromSheet(grid);
      if table.Some? {
        all := Dicts.Put(all, NormalizeVehicleId(title), table.value);
      }
    }
    assert sheets[..|sheets|] == sheets;
  }

  /** The tables of a workbook, one per sheet that yields data; a later sheet with the same id replaces an earlier one. */
  function AllVehicles(sheets: seq<(string, seq<Row>)>): Dicts.Dict<string, RateTable>
    decreases |sheets|
  {
    if |sheets| == 0 then []
    else
      var all := AllVehicles(sheets[..|sheets| - 1]);
      var (title, grid) := sheets[|sheets| - 1];
      match SheetTable(grid)
      case Some(t) => Dicts.Put(all, NormalizeVehicleId(title), t)
      case None => all
  }

  // ----- properties -----

  /** Every term and mileage is a standard one and every rate lies in (0, 1]. */
  predicate WellFormed(t: RateTable) {
    forall e :: e in t ==> e.0 in StandardTerms && RatesWellFormed(e.1)
  }

  predicate RatesWellFormed(r: Rates) {
    forall e :: e in r ==> e.0 in StandardMileages && 0.0 < e.1 <= 1.0
  }

  /** Every term holds at least one rate. */
  predicate NoEmptyTerm(t: RateTable) {
    forall e :: e in t ==> e.1 != []
  }

  /** Cell j of the row is the number v. */
  predicate CellIs(row: Row, j: int, v: int) {
    0 <= j < |row| && row[j].Num? && row[j].value == v as real
  }

  /** The column map holds only header values, each at a column whose cell equals it. */
  lemma {:induction false} ColumnMapSound(row: Row, values: seq<int>)
    ensures forall e :: e in ColumnMap(row, values) ==> e.0 in values && CellIs(row, e.1, e.0)
  {
    if |row| > 0 {
      var init := row[..|row| - 1];
      ColumnMapSound(init, values);
      var c := row[|row| - 1];
      assert forall e :: e in ColumnMap(init, values) ==> CellIs(row, e.1, e.0) by {
        forall e | e in ColumnMap(init, values) ensures CellIs(row, e.1, e.0) {
          assert init[e.1] == row[e.1];
        }
      }
      if OneOf(c, values) {
        Dicts.PutEntries(ColumnMap(init, values), Whole(c, values), |row| - 1);
      }
    }
  }

  /** The last column of the row whose cell is the number v, if any. */
  function LastColumn(row: Row, v: int): Option<int>
    decreases |row|
  {
    if |row| == 0 then None
    else if CellIs(row, |row| - 1, v) then Some(|row| - 1)
    else LastColumn(row[..|row| - 1], v)
  }

  /** LastColumn finds a column exactly when one holds v, and then no later column holds it. */
  lemma {:induction false} LastColumnSpec(row: Row, v: int)
    ensures LastColumn(row, v).None? <==> forall j :: !CellIs(row, j, v)
    ensures LastColumn(row, v).Some? ==>
      CellIs(row, LastColumn(row, v).value, v) && forall j :: LastColumn(row, v).value < j ==> !CellIs(row, j, v)
    decreases |row|
  {
    if |row| > 0 && !CellIs(row, |row| - 1, v) {
      var init := row[..|row| - 1];
      LastColumnSpec(init, v);
      assert forall j :: CellIs(init, j, v) <==> j < |init| && CellIs(row, j, v) by {
        forall j ensures CellIs(init, j, v) <==> j < |init| && CellIs(row, j, v) {
          if 0 <= j < |init| { assert init[j] == row[j]; }
        }
      }
    }
  }

  /**
   * A header value is mapped to the last column that holds it, and is unmapped
   * when no column does: a repeated value keeps the rightmost column.
   */
  lemma {:induction false} RightmostColumn(row: Row, values: seq<int>, v: int)
    requires v in values
    ensures Dicts.Get(ColumnMap(row, values), v) == LastColumn(row, v)
    ensures Dicts.Get(ColumnMap(row, values), v).None? <==> forall j :: !CellIs(row, j, v)
    ensures Dicts.Get(ColumnMap(row, values), v).Some? ==>
      var j := Dicts.Get(ColumnMap(row, values), v).value;
      CellIs(row, j, v) && forall j' :: j < j' ==> !CellIs(row, j', v)
    decreases |row|
  {
    LastColumnSpec(row, v);
    if |row| > 0 {
      var init := row[..|row| - 1];
      RightmostColumn(init, values, v);
      var c := row[|row| - 1];
      if OneOf(c, values) {
        Dicts.PutGet(ColumnMap(init, values), Whole(c, values), |row| - 1);
      } else {
        assert !CellIs(row, |row| - 1, v);
      }
    }
  }

  /** Storing a valid rate under a standard term and mileage keeps a table well formed and free of empty terms. */
  lemma StoreKeepsShape(t: RateTable, term: int, mileage: int, rate: real)
    requires term in StandardTerms && mileage in StandardMileages && 0.0 < rate <= 1.0
    ensures WellFormed(t) ==> WellFormed(Store(t, term, mileage, rate))
    ensures NoEmptyTerm(t) ==> NoEmptyTerm(Store(t, term, mileage, rate))
  {
    var inner := Dicts.Get(t, term).GetOr([]);
    Dicts.PutEntries(inner, mileage, rate);
    Dicts.PutEntries(t, term, Dicts.Put(inner, mileage, rate));
    PutNonEmpty(inner, mileage, rate);
  }

  lemma PutNonEmpty(d: Rates, k: int, v: real)
    ensures Dicts.Put(d, k, v) != []
  {
    Dicts.PutGet(d, k, v);
  }

  /** Filling a row keeps a table well formed, and in pattern 1 creates no empty term. */
  lemma {:induction false} FillRowKeepsShape(p: Layout, t: RateTable, cols: Dicts.Dict<int, int>, row: Row, rowLabel: int)
    requires rowLabel in LabelValues(p)
    requires forall e :: e in cols ==> e.0 in HeaderValues(p)
    ensures WellFormed(t) ==> WellFormed(FillRow(p, t, cols, row, rowLabel))
    ensures NoEmptyTerm(t) ==> NoEmptyTerm(FillRow(p, t, cols, row, rowLabel))
    decreases |cols|
  {
    if |cols| > 0 {
      var init := cols[..|cols| - 1];
      assert forall e :: e in init ==> e in cols;
      FillRowKeepsShape(p, t, init, row, rowLabel);
      var t' := FillRow(p, t, init, row, rowLabel);
      var key := cols[|cols| - 1].0;
      var c := At(row, cols[|cols| - 1].1);
      if IsRate(c) {
        if p == TermsAcross {
          StoreKeepsShape(t', key, rowLabel, c.value);
        } else {
          StoreKeepsShape(t', rowLabel, key, c.value);
        }
      }
    }
  }

  /** Reading a row keeps a table well formed; in pattern 1 it creates no empty term. */
  lemma ReadRowKeepsShape(p: Layout, t: RateTable, cols: Dicts.Dict<int, int>, row: Row)
    requires forall e :: e in cols ==> e.0 in HeaderValues(p)
    ensures WellFormed(t) ==> WellFormed(ReadRow(p, t, cols, row))
    ensures p == TermsAcross && NoEmptyTerm(t) ==> NoEmptyTerm(ReadRow(p, t, cols, row))
  {
    var first := At(row, 0);
    if OneOf(first, LabelValues(p)) {
      var rowLabel := Whole(first, LabelValues(p));
      if p == TermsAcross {
        FillRowKeepsShape(p, t, cols, row, rowLabel);
      } else {
        Dicts.PutEntries(t, rowLabel, []);
        FillRowKeepsShape(p, Dicts.Put(t, rowLabel, []), cols, row, rowLabel);
      }
    }
  }

  lemma {:induction false} ReadRowsKeepShape(p: Layout, grid: seq<Row>, cols: Dicts.Dict<int, int>, lo: nat, hi: nat)
    requires hi <= |grid|
    requires forall e :: e in cols ==> e.0 in HeaderValues(p)
    ensures WellFormed(ReadRows(p, grid, cols, lo, hi))
    ensures p == TermsAcross ==> NoEmptyTerm(ReadRows(p, grid, cols, lo, hi))
    decreases hi
  {
    if hi > lo {
      ReadRowsKeepShape(p, grid, cols, lo, hi - 1);
      ReadRowKeepsShape(p, ReadRows(p, grid, cols, lo, hi - 1), cols, grid[hi - 1]);
    }
  }

  /**
   * Every block holds only standard terms and mileages with rates in (0, 1];
   * a pattern-1 block never holds a term without a rate.
   */
  lemma BlockWellFormed(p: Layout, grid: seq<Row>, h: nat)
    requires h < |grid|
    ensures WellFormed(Block(p, grid, h))
    ensures p == TermsAcross ==> NoEmptyTerm(Block(p, grid, h))
  {
    ColumnMapSound(grid[h], HeaderValues(p));
    ReadRowsKeepShape(p, grid, ColumnMap(grid[h], HeaderValues(p)), h + 1, WindowEnd(grid, h));
  }

  /**
   * A table found from row `from` on comes from a header row holding all the
   * header values, whose block is non-empty; every earlier row from `from` on
   * is not a header or has an empty block.
   */
  lemma {:induction false} FirstHeaderWins(p: Layout, grid: seq<Row>, from: nat, t: RateTable)
    requires FirstTable(p, grid, from) == Some(t)
    ensures exists h ::
              && from <= h < |grid| && IsHeader(grid[h], HeaderValues(p)) && Block(p, grid, h) == t && t != []
              && forall h' :: from <= h' < h ==> !IsHeader(grid[h'], HeaderValues(p)) || Block(p, grid, h') == []
    decreases |grid| - from
  {
    if !(IsHeader(grid[from], HeaderValues(p)) && Block(p, grid, from) != []) {
      FirstHeaderWins(p, grid, from + 1, t);
      var h :| from + 1 <= h < |grid| && IsHeader(grid[h], HeaderValues(p)) && Block(p, grid, h) == t && t != [] &&
        forall h' :: from + 1 <= h' < h ==> !IsHeader(grid[h'], HeaderValues(p)) || Block(p, grid, h') == [];
      assert forall h' :: from <= h' < h ==> !IsHeader(grid[h'], HeaderValues(p)) || Block(p, grid, h') == [];
    }
  }

  /** Nothing is found exactly when no row from `from` on is a header with a non-empty block. */
  lemma {:induction false} NoTableNoHeader(p: Layout, grid: seq<Row>, from: nat)
    ensures FirstTable(p, grid, from).None? <==>
      forall h :: from <= h < |grid| ==> !IsHeader(grid[h], HeaderValues(p)) || Block(p, grid, h) == []
    decreases |grid| - from
  {
    if from < |grid| {
      NoTableNoHeader(p, grid, from + 1);
    }
  }

  /** Rows lo .. hi - 1 are all that ReadRows looks at. */
  lemma {:induction false} ReadRowsLocal(p: Layout, grid: seq<Row>, other: seq<Row>, cols: Dicts.Dict<int, int>, lo: nat, hi: nat)
    requires hi <= |grid| && hi <= |other|
    requires forall i :: lo <= i < hi ==> grid[i] == other[i]
    ensures ReadRows(p, grid, cols, lo, hi) == ReadRows(p, other, cols, lo, hi)
    decreases hi
  {
    if hi > lo {
      ReadRowsLocal(p, grid, other, cols, lo, hi - 1);
    }
  }

  /** Two sheets that agree on a header row and on the nine rows after it give that header the same block. */
  lemma BlockSeesNineRows(p: Layout, grid: seq<Row>, other: seq<Row>, h: nat)
    requires h < |grid| && h < |other| && WindowEnd(grid, h) == WindowEnd(other, h)
    requires forall i :: h <= i < WindowEnd(grid, h) ==> grid[i] == other[i]
    ensures Block(p, grid, h) == Block(p, other, h)
  {
    ReadRowsLocal(p, grid, other, ColumnMap(grid[h], HeaderValues(p)), h + 1, WindowEnd(grid, h));
  }

  /** A sheet's table is the pattern-1 table whenever there is one, and otherwise the pattern-2 table. */
  lemma PatternOrder(grid: seq<Row>)
    ensures FirstTable(TermsAcross, grid, 0).Some? ==> SheetTable(grid) == FirstTable(TermsAcross, grid, 0)
    ensures FirstTable(TermsAcross, grid, 0).None? ==> SheetTable(grid) == FirstTable(MileagesAcross, grid, 0)
    ensures SheetTable(grid).None? <==>
      forall h :: 0 <= h < |grid| ==>
        (!IsHeader(grid[h], StandardTerms) || Block(TermsAcross, grid, h) == []) &&
        (!IsHeader(grid[h], StandardMileages) || Block(MileagesAcross, grid, h) == [])
  {
    NoTableNoHeader(TermsAcross, grid, 0);
    NoTableNoHeader(MileagesAcross, grid, 0);
  }

  /** A pattern-1 table never holds a term without a rate. */
  lemma TermsAcrossNoEmptyTerm(grid: seq<Row>, t: RateTable)
    requires FirstTable(TermsAcross, grid, 0) == Some(t)
    ensures NoEmptyTerm(t)
  {
    FirstHeaderWins(TermsAcross, grid, 0, t);
    var h :| 0 <= h < |grid| && IsHeader(grid[h], StandardTerms) && Block(TermsAcross, grid, h) == t;
    BlockWellFormed(TermsAcross, grid, h);
  }

  /**
   * Pattern 2 keeps a term row whose rates are all unusable as an empty term:
   * a mileage header over a 24-month row with no rate yields {24: {}}.
   */
  lemma MileagesAcrossKeepsEmptyTerm()
    ensures FirstTable(MileagesAcross, MileageHeaderOverBareTerm(), 0) == Some([(24, [])])
    ensures !NoEmptyTerm([(24, [])])
  {
    var grid := MileageHeaderOverBareTerm();
    ExampleHeader();
    ExampleTermRow();
    assert ReadRows(MileagesAcross, grid, ExampleColumns(), 1, 1) == [];
    assert Block(MileagesAcross, grid, 0) == [(24, [])];
  }

  function ExampleColumns(): Dicts.Dict<int, int> {
    [(10000, 1), (15000, 2), (20000, 3), (30000, 4)]
  }

  lemma ExampleHeader()
    ensures IsHeader(MileageHeaderOverBareTerm()[0], StandardMileages)
    ensures ColumnMap(MileageHeaderOverBareTerm()[0], StandardMileages) == ExampleColumns()
  {
    var header: Row := MileageHeaderOverBareTerm()[0];
    var cols := ExampleColumns();
    assert IsHeader(header, StandardMileages) by {
      assert CellIs(header, 1, 10000) && CellIs(header, 2, 15000);
      assert CellIs(header, 3, 20000) && CellIs(header, 4, 30000);
    }
    ExampleHeaderPrefix(header, 1, 10000);
    ExampleHeaderPrefix(header, 2, 15000);
    ExampleHeaderPrefix(header, 3, 20000);
    ExampleHeaderPrefix(header, 4, 30000);
    assert header[..5] == header;
  }

  /** Each numbered header cell adds its mileage at its column. */
  lemma ExampleHeaderPrefix(header: Row, j: nat, m: int)
    requires header == MileageHeaderOverBareTerm()[0]
    requires 1 <= j <= 4 && m == ExampleColumns()[j - 1].0
    requires ColumnMap(header[..j], StandardMileages) == ExampleColumns()[..j - 1]
    ensures ColumnMap(header[..j + 1], StandardMileages) == ExampleColumns()[..j]
  {
    var cols := ExampleColumns();
    assert m in StandardMileages && header[j].value == m as real;
    assert Whole(header[j], StandardMileages) == m;
    assert header[..j + 1][..j] == header[..j];
    assert !Dicts.HasKey(cols[..j - 1], m);
    Dicts.PutNew(cols[..j - 1], m, j);
    assert cols[..j - 1] + [(m, j)] == cols[..j];
  }

  lemma ExampleTermRow()
    ensures ReadRow(MileagesAcross, [], ExampleColumns(), MileageHeaderOverBareTerm()[1]) == [(24, [])]
  {
    var row := MileageHeaderOverBareTerm()[1];
    var cols := ExampleColumns();
    assert OneOf(At(row, 0), StandardTerms) by {
      assert 24 in StandardTerms && At(row, 0).value == 24 as real;
    }
    assert Whole(At(row, 0), StandardTerms) == 24;
    assert !IsRate(At(row, 1)) && !IsRate(At(row, 2)) && !IsRate(At(row, 3)) && !IsRate(At(row, 4));
    assert cols[..4][..3] == cols[..3] && cols[..3][..2] == cols[..2] && cols[..2][..1] == cols[..1];
    assert FillRow(MileagesAcross, [(24, [])], cols[..1], row, 24) == [(24, [])];
    assert FillRow(MileagesAcross, [(24, [])], cols[..2], row, 24) == [(24, [])];
    assert FillRow(MileagesAcross, [(24, [])], cols[..3], row, 24) == [(24, [])];
    assert cols[..4] == cols;
  }

  function MileageHeaderOverBareTerm(): seq<Row> {
    [ [Str("km"), Num(10000.0, "10000"), Num(15000.0, "15000"), Num(20000.0, "20000"), Num(30000.0, "30000")],
      [Num(24.0, "24"), Str("-"), Empty, Num(0.0, "0"), Num(1.5, "1.5")] ]
  }
}
