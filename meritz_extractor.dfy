/**
 * The Meritz Capital workbook extractor: four partners' grade tables and a
 * mileage adjustment column are read from the residual sheet, and for every
 * vehicle row of the vehicle sheet a normal and a premium residual table per
 * partner are generated from the vehicle's grade letters.
 */
module MeritzExtractor {
  import opened Wrappers
  import opened Numeric
  import opened Cells
  import opened RateTables
  import Text
  import Dicts
  import Lists

  /** term → grade letter → rate, as the residual sheet lists it for one partner. */
  type GradeTable = Dicts.Dict<int, Dicts.Dict<string, real>>

  // ----- _parse_residual_table -----

  /** The grade names of a header window: its non-empty text cells after the first, in order. */
  function GradeNames(header: Row): (grades: seq<string>)
    ensures forall g :: g in grades ==> g != ""
  {
    var cells := if |header| == 0 then [] else header[1..];
    Lists.FilterMapSound(cells, IsGradeName, (c: Cell) => CellText(c));
    Lists.FilterMap(cells, IsGradeName, (c: Cell) => CellText(c))
  }

  /** `cell and isinstance(cell, str)`. */
  predicate IsGradeName(c: Cell) {
    c.Str? && c.s != ""
  }

  /** The rates of one term row: grade i is read from the cell after the term, plus i. */
  function GradeRates(grades: seq<string>, row: Row, n: nat): Dicts.Dict<string, real>
    requires n <= |grades|
  {
    if n == 0 then []
    else
      var rates := GradeRates(grades, row, n - 1);
      var c := At(row, n);
      if IsRate(c) then Dicts.Put(rates, grades[n - 1], c.value) else rates
  }

  /** The term a row is read under: a number whose int() is one of the standard terms. */
  function RowTerm(row: Row): Option<int> {
    var period := At(row, 0);
    if period.Num? && Trunc(period.value) in StandardTerms then Some(Trunc(period.value)) else None
  }

  /** Rows read in order; each listed term row replaces that term's grade rates. */
  function ParsedRows(grades: seq<string>, rows: seq<Row>): GradeTable
    decreases |rows|
  {
    if |rows| == 0 then []
    else
      var table := ParsedRows(grades, rows[..|rows| - 1]);
      var row := rows[|rows| - 1];
      match RowTerm(row)
      case None => table
      case Some(term) => Dicts.Put(table, term, GradeRates(grades, row, |grades|))
  }

  /** _parse_residual_table over a header window and the term rows below it. */
  function ResidualTableOf(header: Row, rows: seq<Row>): GradeTable {
    ParsedRows(GradeNames(header), rows)
  }

  /** The header's grade loop. */
  method HeaderGrades(header: Row) returns (grades: seq<string>)
    ensures grades == GradeNames(header)
  {
    grades := [];
    var cells := if |header| == 0 then [] else header[1..];
    for i := 0 to |cells|
      invariant grades == Lists.FilterMap(cells[..i], IsGradeName, (c: Cell) => CellText(c))
    {
      Lists.FilterMapSnoc(cells[..i], cells[i], IsGradeName, (c: Cell) => CellText(c));
      assert cells[..i + 1] == cells[..i] + [cells[i]];
      if IsGradeName(cells[i]) {
        grades := grades + [CellText(cells[i])];
      }
    }
    assert cells[..|cells|] == cells;
  }

  /** The inner loop of _parse_residual_table over the grades of one term row. */
  method ReadGradeRates(grades: seq<string>, row: Row) returns (rates: Dicts.Dict<string, real>)
    ensures rates == GradeRates(grades, row, |grades|)
  {
    rates := [];
    for i := 0 to |grades|
      invariant rates == GradeRates(grades, row, i)
    {
      var c := At(row, i + 1);
      if IsRate(c) {
        rates := Dicts.Put(rates, grades[i], c.value);
      }
    }
  }

  /** _parse_residual_table. */
  method ParseResidualTable(header: Row, rows: seq<Row>) returns (table: GradeTable)
    ensures table == ResidualTableOf(header, rows)
    ensures TableWellFormed(table, GradeNames(header))
  {
    var grades := HeaderGrades(header);
    table := [];
    for i := 0 to |rows|
      invariant table == ParsedRows(grades, rows[..i])
    {
      assert rows[..i + 1][..i] == rows[..i];
      var period := At(rows[i], 0);
      if period.Num? {
        var term := Trunc(period.value);
        if term in StandardTerms {
          var rates := ReadGradeRates(grades, rows[i]);
          table := Dicts.Put(table, term, rates);
        }
      }
    }
    assert rows[..|rows|] == rows;
    ParsedTableWellFormed(grades, rows);
  }

  /** Only standard terms, only the header's grades, and every rate in (0, 1]. */
  predicate TableWellFormed(table: GradeTable, grades: seq<string>) {
    forall e :: e in table ==> e.0 in StandardTerms && GradeRatesWellFormed(e.1, grades)
  }

  predicate GradeRatesWellFormed(rates: Dicts.Dict<string, real>, grades: seq<string>) {
    forall e :: e in rates ==> e.0 in grades && 0.0 < e.1 <= 1.0
  }

  lemma {:induction false} GradeRatesWellFormedAlways(grades: seq<string>, row: Row, n: nat)
    requires n <= |grades|
    ensures GradeRatesWellFormed(GradeRates(grades, row, n), grades)
  {
    if n > 0 {
      GradeRatesWellFormedAlways(grades, row, n - 1);
      if IsRate(At(row, n)) {
        Dicts.PutEntries(GradeRates(grades, row, n - 1), grades[n - 1], At(row, n).value);
      }
    }
  }

  /** Every parsed table holds only standard terms, the header's grades, and rates in (0, 1]. */
  lemma {:induction false} ParsedTableWellFormed(grades: seq<string>, rows: seq<Row>)
    ensures TableWellFormed(ParsedRows(grades, rows), grades)
  {
    if |rows| > 0 {
      var init := rows[..|rows| - 1];
      ParsedTableWellFormed(grades, init);
      var row := rows[|rows| - 1];
      if RowTerm(row).Some? {
        GradeRatesWellFormedAlways(grades, row, |grades|);
        Dicts.PutEntries(ParsedRows(grades, init), RowTerm(row).value, GradeRates(grades, row, |grades|));
      }
    }
  }

  /** The standard terms the rows carry, in row order. */
  function RowTerms(rows: seq<Row>): seq<int> {
    Lists.FilterMap(rows, (r: Row) => RowTerm(r).Some?, (r: Row) => RowTerm(r).GetOr(0))
  }

  /**
   * A term is in the table exactly when some row's first cell is a number
   * whose int() is that standard term: text cells and other terms (12, 72)
   * are skipped.
   */
  lemma {:induction false} ParsedTerms(grades: seq<string>, rows: seq<Row>, term: int)
    ensures Dicts.HasKey(ParsedRows(grades, rows), term) <==> term in RowTerms(rows)
  {
    if |rows| > 0 {
      var init := rows[..|rows| - 1];
      var row := rows[|rows| - 1];
      ParsedTerms(grades, init, term);
      if RowTerm(row).Some? {
        Dicts.PutKeys(ParsedRows(grades, init), RowTerm(row).value, GradeRates(grades, row, |grades|));
      }
    }
  }

  /** The row's term: a number is cut to its integer part, so 24.5 months reads as 24. */
  lemma FractionalTermTruncated()
    ensures RowTerm([Num(24.5, "24.5")]) == Some(24)
    ensures RowTerm([Num(12.0, "12")]) == None && RowTerm([Str("24")]) == None
  {
  }

  // ----- _extract_residual_tables -----

  /** The four partners' grade tables. */
  datatype Tables = Tables(west: GradeTable, aj: GradeTable, aps: GradeTable, vgs: GradeTable)

  /** The rows start .. end - 1 of the residual sheet over columns c0 .. c1. */
  function Rows(grid: seq<Row>, start: int, end: int, c0: int, c1: int): (rows: seq<Row>)
    ensures |rows| == if end >= start then end - start else 0
  {
    seq(if end >= start then end - start else 0, k => Region(grid, start + k, c0, c1))
  }

  /** The fixed positions of the four tables on the residual sheet. */
  function ResidualTables(grid: seq<Row>): Tables {
    Tables(
      ResidualTableOf(Region(grid, 48, 2, 13), Rows(grid, 49, 54, 2, 13)),
      ResidualTableOf(Region(grid, 57, 2, 23), Rows(grid, 58, 63, 2, 23)),
      ResidualTableOf(Region(grid, 65, 2, 24), Rows(grid, 66, 71, 2, 24)),
      ResidualTableOf(Region(grid, 73, 2, 12), Rows(grid, 74, 78, 2, 12)))
  }

  /** _extract_residual_tables. */
  method ExtractResidualTables(grid: seq<Row>) returns (tables: Tables)
    ensures tables == ResidualTables(grid)
  {
    var west := ParseResidualTable(Region(grid, 48, 2, 13), Rows(grid, 49, 54, 2, 13));
    var aj := ParseResidualTable(Region(grid, 57, 2, 23), Rows(grid, 58, 63, 2, 23));
    var aps := ParseResidualTable(Region(grid, 65, 2, 24), Rows(grid, 66, 71, 2, 24));
    var vgs := ParseResidualTable(Region(grid, 73, 2, 12), Rows(grid, 74, 78, 2, 12));
    tables := Tables(west, aj, aps, vgs);
  }

  // ----- _extract_mileage_adjustments -----

  /** The mileage a row adjusts: a positive number, cut to its integer part. */
  function MileageKey(row: Row): Option<int> {
    var mileage := At(row, 0);
    if mileage.Num? && mileage.value > 0.0 then Some(Trunc(mileage.value)) else None
  }

  /** The adjustment beside it; a cell that is not a number counts as 0. */
  function AdjustmentValue(row: Row): real {
    var adjustment := At(row, 1);
    if adjustment.Num? then adjustment.value else 0.0
  }

  /** mileage → adjustment, row by row; a later row for the same mileage replaces an earlier one. */
  function AdjustmentsOf(rows: seq<Row>): Dicts.Dict<int, real>
    decreases |rows|
  {
    if |rows| == 0 then []
    else
      var d := AdjustmentsOf(rows[..|rows| - 1]);
      var row := rows[|rows| - 1];
      match MileageKey(row)
      case None => d
      case Some(m) => Dicts.Put(d, m, AdjustmentValue(row))
  }

  /** Rows 36 .. 39 of the residual sheet, columns 9 (km) and 10 (adjustment). */
  function AdjustmentRows(grid: seq<Row>): seq<Row> {
    Rows(grid, 36, 40, 9, 10)
  }

  /** _extract_mileage_adjustments. */
  method ExtractMileageAdjustments(grid: seq<Row>) returns (adjustments: Dicts.Dict<int, real>)
    ensures adjustments == AdjustmentsOf(AdjustmentRows(grid))
  {
    var rows := AdjustmentRows(grid);
    adjustments := [];
    for i := 0 to |rows|
      invariant adjustments == AdjustmentsOf(rows[..i])
    {
      assert rows[..i + 1][..i] == rows[..i];
      var mileage := At(rows[i], 0);
      var adjustment := At(rows[i], 1);
      if mileage.Num? && mileage.value > 0.0 {
        var value := if adjustment.Num? then adjustment.value else 0.0;
        adjustments := Dicts.Put(adjustments, Trunc(mileage.value), value);
      }
    }
    assert rows[..|rows|] == rows;
  }

  /**
   * A mileage has an adjustment exactly when some row carries it as a positive
   * number; every stored value is some such row's adjustment (0 for a non-number);
   * no key is negative.
   */
  lemma {:induction false} AdjustmentEntries(rows: seq<Row>)
    ensures forall e :: e in AdjustmentsOf(rows) ==>
      e.0 >= 0 && exists i :: 0 <= i < |rows| && MileageKey(rows[i]) == Some(e.0) && AdjustmentValue(rows[i]) == e.1
  {
    if |rows| > 0 {
      var init := rows[..|rows| - 1];
      AdjustmentEntries(init);
      var row := rows[|rows| - 1];
      assert forall i :: 0 <= i < |init| ==> rows[i] == init[i];
      if MileageKey(row).Some? {
        Dicts.PutEntries(AdjustmentsOf(init), MileageKey(row).value, AdjustmentValue(row));
      }
    }
  }

  /** Every positive numeric mileage of the rows has an adjustment. */
  lemma {:induction false} AdjustmentKeys(rows: seq<Row>, m: int)
    ensures Dicts.HasKey(AdjustmentsOf(rows), m) <==> exists i :: 0 <= i < |rows| && MileageKey(rows[i]) == Some(m)
  {
    if |rows| > 0 {
      var init := rows[..|rows| - 1];
      AdjustmentKeys(init, m);
      var row := rows[|rows| - 1];
      if MileageKey(row).Some? {
        Dicts.PutKeys(AdjustmentsOf(init), MileageKey(row).value, AdjustmentValue(row));
      }
      if exists i :: 0 <= i < |rows| && MileageKey(rows[i]) == Some(m) {
        var i :| 0 <= i < |rows| && MileageKey(rows[i]) == Some(m);
        if i < |rows| - 1 {
          assert init[i] == rows[i];
        }
      }
      if exists i :: 0 <= i < |init| && MileageKey(init[i]) == Some(m) {
        var i :| 0 <= i < |init| && MileageKey(init[i]) == Some(m);
        assert rows[i] == init[i];
      }
    }
  }

  // ----- _calculate_residual_for_vehicle -----

  /** residual_table[term][grade], when the table lists both. */
  function BaseRate(table: GradeTable, grade: string, term: int): Option<real> {
    match Dicts.Get(table, term)
    case None => None
    case Some(rates) => Dicts.Get(rates, grade)
  }

  /** mileage_adjustments.get(mileage, 0.0). */
  function AdjustmentFor(adjustments: Dicts.Dict<int, real>, mileage: int): real {
    Dicts.Get(adjustments, mileage).GetOr(0.0)
  }

  /** One term's rates: each mileage gets the clamped base rate plus its adjustment. */
  function MileageRates(base: real, adjustments: Dicts.Dict<int, real>, mileages: seq<int>): Rates {
    Dicts.FromKeys(mileages, (m: int) => AdjustedRate(base, AdjustmentFor(adjustments, m)))
  }

  /** The terms among `terms` for which the table lists the grade, each with its mileage rates. */
  function TermRates(table: GradeTable, grade: string, adjustments: Dicts.Dict<int, real>, terms: seq<int>): RateTable
    decreases |terms|
  {
    if |terms| == 0 then []
    else
      var r := TermRates(table, grade, adjustments, terms[..|terms| - 1]);
      var term := terms[|terms| - 1];
      match BaseRate(table, grade, term)
      case None => r
      case Some(base) => Dicts.Put(r, term, MileageRates(base, adjustments, StandardMileages))
  }

  /** A vehicle's residual table for one partner grade; None when no standard term lists the grade. */
  function VehicleResidual(grade: string, table: GradeTable, adjustments: Dicts.Dict<int, real>): Option<RateTable> {
    var r := TermRates(table, grade, adjustments, StandardTerms);
    if r == [] then None else Some(r)
  }

  /** The mileage loop of _calculate_residual_for_vehicle. */
  method AdjustedMileageRates(base: real, adjustments: Dicts.Dict<int, real>) returns (rates: Rates)
    ensures rates == MileageRates(base, adjustments, StandardMileages)
  {
    rates := [];
    var mileages := StandardMileages;
    for k := 0 to |mileages|
      invariant rates == MileageRates(base, adjustments, mileages[..k])
    {
      assert mileages[..k + 1][..k] == mileages[..k];
      var m := mileages[k];
      var adjustment := Dicts.Get(adjustments, m).GetOr(0.0);
      rates := Dicts.Put(rates, m, AdjustedRate(base, adjustment));
    }
    assert mileages[..|mileages|] == mileages;
  }

  /** _calculate_residual_for_vehicle. */
  method CalculateResidualForVehicle(grade: string, table: GradeTable, adjustments: Dicts.Dict<int, real>)
    returns (result: Option<RateTable>)
    ensures result == VehicleResidual(grade, table, adjustments)
  {
    var r: RateTable := [];
    var terms := StandardTerms;
    for i := 0 to |terms|
      invariant r == TermRates(table, grade, adjustments, terms[..i])
    {
      assert terms[..i + 1][..i] == terms[..i];
      var term := terms[i];
      var rates := Dicts.Get(table, term);
      if rates.Some? {
        var base := Dicts.Get(rates.value, grade);
        if base.Some? {
          var mileageRates := AdjustedMileageRates(base.value, adjustments);
          r := Dicts.Put(r, term, mileageRates);
        }
      }
    }
    assert terms[..|terms|] == terms;
    result := if r == [] then None else Some(r);
  }

  /** A mileage has a rate exactly when it is one of the mileages, and it is the clamped adjusted base rate. */
  lemma MileageRatesGet(base: real, adjustments: Dicts.Dict<int, real>, mileages: seq<int>, m: int)
    ensures Dicts.Get(MileageRates(base, adjustments, mileages), m) ==
      if m in mileages then Some(AdjustedRate(base, AdjustmentFor(adjustments, m))) else None
  {
    Dicts.FromKeysGet(mileages, (m: int) => AdjustedRate(base, AdjustmentFor(adjustments, m)), m);
  }

  /** A term has rates exactly when it is one of the terms and the table lists the grade under it. */
  lemma {:induction false} TermRatesGet(table: GradeTable, grade: string, adjustments: Dicts.Dict<int, real>, terms: seq<int>, term: int)
    ensures Dicts.Get(TermRates(table, grade, adjustments, terms), term) ==
      if term in terms && BaseRate(table, grade, term).Some?
      then Some(MileageRates(BaseRate(table, grade, term).value, adjustments, StandardMileages))
      else None
  {
    if |terms| > 0 {
      var init := terms[..|terms| - 1];
      var last := terms[|terms| - 1];
      TermRatesGet(table, grade, adjustments, init, term);
      assert terms == init + [last];
      if BaseRate(table, grade, last).Some? {
        Dicts.PutGet(TermRates(table, grade, adjustments, init), last,
          MileageRates(BaseRate(table, grade, last).value, adjustments, StandardMileages));
      }
    }
  }

  /** There are no rates exactly when the table lists the grade under none of the terms. */
  lemma TermRatesEmpty(table: GradeTable, grade: string, adjustments: Dicts.Dict<int, real>, terms: seq<int>)
    ensures TermRates(table, grade, adjustments, terms) == [] <==>
      forall t :: t in terms ==> BaseRate(table, grade, t).None?
  {
    var r := TermRates(table, grade, adjustments, terms);
    if r != [] {
      assert Dicts.Keys(r)[0] == r[0].0;
      TermRatesGet(table, grade, adjustments, terms, r[0].0);
    }
    if exists t :: t in terms && BaseRate(table, grade, t).Some? {
      var t :| t in terms && BaseRate(table, grade, t).Some?;
      TermRatesGet(table, grade, adjustments, terms, t);
    }
  }

  /**
   * A vehicle has a table exactly when some standard term lists its grade;
   * the table then holds exactly those terms, each with the four standard
   * mileages, and every rate is the base rate plus that mileage's adjustment
   * (0 where none is listed), clamped to [0.1, 0.95] and rounded to four places.
   */
  lemma VehicleResidualSpec(grade: string, table: GradeTable, adjustments: Dicts.Dict<int, real>, term: int, mileage: int)
    ensures VehicleResidual(grade, table, adjustments).None? <==>
      forall t :: t in StandardTerms ==> BaseRate(table, grade, t).None?
    ensures VehicleResidual(grade, table, adjustments).Some? ==>
      (Dicts.HasKey(VehicleResidual(grade, table, adjustments).value, term) <==>
        term in StandardTerms && BaseRate(table, grade, term).Some?)
    ensures VehicleResidual(grade, table, adjustments).Some? && term in StandardTerms && BaseRate(table, grade, term).Some? ==>
      Dicts.Get(Dicts.Get(VehicleResidual(grade, table, adjustments).value, term).value, mileage) ==
        if mileage in StandardMileages
        then Some(AdjustedRate(BaseRate(table, grade, term).value, AdjustmentFor(adjustments, mileage)))
        else None
  {
    TermRatesEmpty(table, grade, adjustments, StandardTerms);
    TermRatesGet(table, grade, adjustments, StandardTerms, term);
    if BaseRate(table, grade, term).Some? {
      MileageRatesGet(BaseRate(table, grade, term).value, adjustments, StandardMileages, mileage);
    }
  }

  lemma MileageRatesShape(base: real, adjustments: Dicts.Dict<int, real>, mileages: seq<int>)
    ensures Dicts.UniqueKeys(MileageRates(base, adjustments, mileages))
    ensures forall x :: x in MileageRates(base, adjustments, mileages) ==> FourPlaces(x.1) && 0.1 <= x.1 <= 0.95
  {
    Dicts.FromKeysShape(mileages, (m: int) => AdjustedRate(base, AdjustmentFor(adjustments, m)));
  }

  lemma {:induction false} TermRatesShape(table: GradeTable, grade: string, adjustments: Dicts.Dict<int, real>, terms: seq<int>)
    ensures Dicts.UniqueKeys(TermRates(table, grade, adjustments, terms))
    ensures Capped(TermRates(table, grade, adjustments, terms))
    ensures forall e :: e in TermRates(table, grade, adjustments, terms) ==> Dicts.UniqueKeys(e.1)
  {
    if |terms| > 0 {
      var init := terms[..|terms| - 1];
      var term := terms[|terms| - 1];
      TermRatesShape(table, grade, adjustments, init);
      match BaseRate(table, grade, term)
      case None =>
      case Some(base) =>
        MileageRatesShape(base, adjustments, StandardMileages);
        var rates := MileageRates(base, adjustments, StandardMileages);
        Dicts.PutUnique(TermRates(table, grade, adjustments, init), term, rates);
        Dicts.PutEntries(TermRates(table, grade, adjustments, init), term, rates);
    }
  }

  /**
   * A generated table has distinct terms and mileages, and all its rates
   * have four decimals and lie in [0.1, 0.95], so its premium table keeps
   * every rate between the normal rate and 0.95.
   */
  lemma VehicleResidualCapped(grade: string, table: GradeTable, adjustments: Dicts.Dict<int, real>, uplift: real)
    requires VehicleResidual(grade, table, adjustments).Some?
    requires uplift >= 0.0
    ensures Dicts.UniqueKeys(VehicleResidual(grade, table, adjustments).value)
    ensures forall e :: e in VehicleResidual(grade, table, adjustments).value ==> Dicts.UniqueKeys(e.1)
    ensures Capped(VehicleResidual(grade, table, adjustments).value)
    ensures Capped(PremiumTable(VehicleResidual(grade, table, adjustments).value, uplift))
    ensures var n := VehicleResidual(grade, table, adjustments).value;
      forall i, k :: 0 <= i < |n| && 0 <= k < |n[i].1| ==> n[i].1[k].1 <= PremiumTable(n, uplift)[i].1[k].1 <= 0.95
  {
    TermRatesShape(table, grade, adjustments, StandardTerms);
    PremiumWithinBounds(VehicleResidual(grade, table, adjustments).value, uplift);
  }

  // ----- _normalize_vehicle_id -----

  /** str(p).strip().replace(' ', '_'). */
  function IdPart(c: Cell): (part: string)
    ensures ' ' !in part
  {
    Text.Replace(Text.Strip(CellText(c)), ' ', "_")
  }

  /** The filled parts of an id, the model replaced by '' when it is empty. */
  function IdParts(maker: Cell, model: Cell, trim: Cell): seq<string> {
    Lists.FilterMap([maker, if Truthy(model) then model else Str(""), trim], Truthy, IdPart)
  }

  lemma IdPartsNoSpace(cells: seq<Cell>)
    ensures forall i :: 0 <= i < |Lists.FilterMap(cells, Truthy, IdPart)| ==> ' ' !in Lists.FilterMap(cells, Truthy, IdPart)[i]
  {
    var parts := Lists.FilterMap(cells, Truthy, IdPart);
    Lists.FilterMapSound(cells, Truthy, IdPart);
    forall i | 0 <= i < |parts|
      ensures ' ' !in parts[i]
    {
      assert parts[i] in parts;
    }
  }

  /**
   * _normalize_vehicle_id(maker, model, trim): the filled parts, each
   * stripped with its spaces turned into underscores, joined by
   * underscores and upper-cased. The id holds no space and no lower-case
   * ASCII letter.
   */
  function NormalizeVehicleId(maker: Cell, model: Cell, trim: Cell): (id: string)
    ensures ' ' !in id
    ensures forall i :: 0 <= i < |id| ==> !('a' <= id[i] <= 'z')
  {
    IdPartsNoSpace([maker, if Truthy(model) then model else Str(""), trim]);
    JoinedNoSpace(IdParts(maker, model, trim));
    Text.Upper(Text.Join(IdParts(maker, model, trim), "_"))
  }

  lemma JoinedNoSpace(parts: seq<string>)
    requires forall i :: 0 <= i < |parts| ==> ' ' !in parts[i]
    ensures ' ' !in Text.Upper(Text.Join(parts, "_"))
  {
    Text.JoinAbsent(parts, "_", ' ');
    Text.UpperKeepsAbsent(Text.Join(parts, "_"), ' ');
  }

  /**
   * For a listed row (maker and trim filled) the id is maker, model and trim
   * joined by underscores; an empty or missing model is left out rather than
   * leaving a doubled underscore.
   */
  lemma NormalizeVehicleIdParts(maker: Cell, model: Cell, trim: Cell)
    requires Truthy(maker) && Truthy(trim)
    ensures NormalizeVehicleId(maker, model, trim) == Text.Upper(
      if Truthy(model) then IdPart(maker) + "_" + IdPart(model) + "_" + IdPart(trim)
      else IdPart(maker) + "_" + IdPart(trim))
  {
    IdPartsListed(maker, model, trim);
    if Truthy(model) {
      JoinThree(IdPart(maker), IdPart(model), IdPart(trim));
    } else {
      JoinTwo(IdPart(maker), IdPart(trim));
    }
  }

  lemma IdPartsListed(maker: Cell, model: Cell, trim: Cell)
    requires Truthy(maker) && Truthy(trim)
    ensures IdParts(maker, model, trim) ==
      if Truthy(model) then [IdPart(maker), IdPart(model), IdPart(trim)] else [IdPart(maker), IdPart(trim)]
  {
    var middle := if Truthy(model) then model else Str("");
    assert Truthy(middle) == Truthy(model);
    Lists.FilterMapEnds(maker, middle, trim, Truthy, IdPart);
  }

  lemma JoinThree(a: string, b: string, c: string)
    ensures Text.Join([a, b, c], "_") == a + "_" + b + "_" + c
  {
    assert [a, b, c][..2] == [a, b];
    JoinTwo(a, b);
  }

  lemma JoinTwo(a: string, b: string)
    ensures Text.Join([a, b], "_") == a + "_" + b
  {
    assert [a, b][..1] == [a];
  }


  // ----- _extract_vehicles_with_residuals -----

  /** The makers the Meritz extractor counts as domestic. */
  const DomesticMakers: seq<string> := ["현대", "기아", "제네시스", "KGM", "쌍용"]

  /** A vehicle master record as the Meritz extractor writes it. */
  datatype Vehicle = Vehicle(
    brand: string, model: string, trim: string, displayName: string,
    price: int, engineCc: int, fuelType: string, isImport: bool,
    westGrade: Option<string>, ajGrade: Option<string>, apsGrade: Option<string>, vgsGrade: Option<string>)

  /** A partner option name (west_normal, …) → residual table. */
  type Options = Dicts.Dict<string, RateTable>

  /** What the extractor returns: the vehicle master and the residual tables, both keyed by vehicle id. */
  datatype Extraction = Extraction(master: Dicts.Dict<string, Vehicle>, residuals: Dicts.Dict<string, Options>)

  /** `all([maker, model3, price])`: columns B, E and F are filled. */
  predicate Listed(row: Row) {
    Truthy(At(row, 1)) && Truthy(At(row, 4)) && Truthy(At(row, 5))
  }

  /** `int(v) if isinstance(v, (int, float)) else 0`. */
  function IntOrZero(c: Cell): int {
    if c.Num? then Trunc(c.value) else 0
  }

  /** `str(v) if v else None`. */
  function TextOrNone(c: Cell): Option<string> {
    if Truthy(c) then Some(CellText(c)) else None
  }

  /** `maker not in [...]`: a maker that is not one of the listed domestic names, or not text at all. */
  predicate IsImport(maker: Cell) {
    !(maker.Str? && maker.s in DomesticMakers)
  }

  /** The id of a row: maker (B), model 1 (C) and model 3 (E). */
  function VehicleId(row: Row): string {
    NormalizeVehicleId(At(row, 1), At(row, 2), At(row, 4))
  }

  /** The master record of a row. */
  function VehicleRecord(row: Row): Vehicle {
    var maker := At(row, 1);
    var model1 := At(row, 2);
    var model3 := At(row, 4);
    Vehicle(
      CellText(maker),
      if Truthy(model1) then CellText(model1) else CellText(maker),
      CellText(model3),
      CellText(maker) + " " + CellText(model3),
      IntOrZero(At(row, 5)),
      IntOrZero(At(row, 6)),
      if Truthy(At(row, 7)) then CellText(At(row, 7)) else "unknown",
      IsImport(maker),
      TextOrNone(At(row, 9)), TextOrNone(At(row, 10)), TextOrNone(At(row, 11)), TextOrNone(At(row, 12)))
  }

  /** A partner's normal table for a grade cell: none when the cell is empty or the grade yields no table. */
  function NormalOption(grade: Cell, table: GradeTable, adjustments: Dicts.Dict<int, real>): Option<RateTable> {
    if Truthy(grade) then VehicleResidual(CellText(grade), table, adjustments) else None
  }

  /** The premium table that goes with a normal one. */
  function PremiumOption(normal: Option<RateTable>, uplift: real): Option<RateTable> {
    match normal
    case None => None
    case Some(n) => Some(PremiumTable(n, uplift))
  }

  /** Stores a partner's normal and premium tables when there is a normal one. */
  function WithPartner(d: Options, normal: Option<RateTable>, normalKey: string, premiumKey: string, uplift: real): Options {
    match normal
    case None => d
    case Some(n) => Dicts.Put(Dicts.Put(d, normalKey, n), premiumKey, PremiumTable(n, uplift))
  }

  /**
   * residual_data for a row: West (column J) and APS (L) with an 8 % premium,
   * VGS (M) with 6 %. The AJ grade (K) is recorded in the master but yields
   * no table.
   */
  function VehicleOptions(row: Row, tables: Tables, adjustments: Dicts.Dict<int, real>): Options {
    var west := WithPartner([], NormalOption(At(row, 9), tables.west, adjustments), "west_normal", "west_premium", 0.08);
    var aps := WithPartner(west, NormalOption(At(row, 11), tables.aps, adjustments), "aps_normal", "aps_premium", 0.08);
    WithPartner(aps, NormalOption(At(row, 12), tables.vgs, adjustments), "vgs_normal", "vgs_premium", 0.06)
  }

  /** The rows of the vehicle sheet from row 7 on. */
  function VehicleRows(grid: seq<Row>): seq<Row> {
    if |grid| >= 6 then grid[6..] else []
  }

  /**
   * The row loop: a listed row stores (or replaces) its master record; its
   * residual tables are stored only when it has any, so a row without
   * tables leaves an earlier row's tables for the same id in place.
   */
  function Extracted(rows: seq<Row>, tables: Tables, adjustments: Dicts.Dict<int, real>): Extraction
    decreases |rows|
  {
    if |rows| == 0 then Extraction([], [])
    else
      var e := Extracted(rows[..|rows| - 1], tables, adjustments);
      var row := rows[|rows| - 1];
      if !Listed(row) then e
      else
        var options := VehicleOptions(row, tables, adjustments);
        Extraction(
          Dicts.Put(e.master, VehicleId(row), VehicleRecord(row)),
          if options == [] then e.residuals else Dicts.Put(e.residuals, VehicleId(row), options))
  }

  /** One partner's part of residual_data. */
  method AddPartner(d: Options, grade: Cell, table: GradeTable, adjustments: Dicts.Dict<int, real>,
                    normalKey: string, premiumKey: string, uplift: real) returns (out: Options)
    requires uplift >= 0.0
    ensures out == WithPartner(d, NormalOption(grade, table, adjustments), normalKey, premiumKey, uplift)
  {
    out := d;
    if Truthy(grade) {
      var normal := CalculateResidualForVehicle(CellText(grade), table, adjustments);
      if normal.Some? {
        VehicleResidualCapped(CellText(grade), table, adjustments, uplift);
        out := Dicts.Put(out, normalKey, normal.value);
        var premium := ApplyPremium(normal.value, uplift);
        out := Dicts.Put(out, premiumKey, premium);
      }
    }
  }

  /** _extract_vehicles_with_residuals. */
  method ExtractVehiclesWithResiduals(grid: seq<Row>, tables: Tables, adjustments: Dicts.Dict<int, real>)
    returns (master: Dicts.Dict<string, Vehicle>, residuals: Dicts.Dict<string, Options>)
    ensures Extraction(master, residuals) == Extracted(VehicleRows(grid), tables, adjustments)
  {
    var rows := VehicleRows(grid);
    master := [];
    residuals := [];
    for i := 0 to |rows|
      invariant Extraction(master, residuals) == Extracted(rows[..i], tables, adjustments)
    {
      assert rows[..i + 1][..i] == rows[..i];
      var row := rows[i];
      if Listed(row) {
        var id := NormalizeVehicleId(At(row, 1), At(row, 2), At(row, 4));
        master := Dicts.Put(master, id, VehicleRecord(row));
        var data := AddPartner([], At(row, 9), tables.west, adjustments, "west_normal", "west_premium", 0.08);
        data := AddPartner(data, At(row, 11), tables.aps, adjustments, "aps_normal", "aps_premium", 0.08);
        data := AddPartner(data, At(row, 12), tables.vgs, adjustments, "vgs_normal", "vgs_premium", 0.06);
        if data != [] {
          residuals := Dicts.Put(residuals, id, data);
        }
      }
    }
    assert rows[..|rows|] == rows;
  }

  /** extract_all: the residual sheet's tables and adjustments, then the vehicle rows. */
  method ExtractAll(residualSheet: seq<Row>, vehicleSheet: seq<Row>)
    returns (master: Dicts.Dict<string, Vehicle>, residuals: Dicts.Dict<string, Options>)
    ensures Extraction(master, residuals) ==
      Extracted(VehicleRows(vehicleSheet), ResidualTables(residualSheet), AdjustmentsOf(AdjustmentRows(residualSheet)))
  {
    var tables := ExtractResidualTables(residualSheet);
    var adjustments := ExtractMileageAdjustments(residualSheet);
    master, residuals := ExtractVehiclesWithResiduals(vehicleSheet, tables, adjustments);
  }

  lemma WithPartnerGet(d: Options, normal: Option<RateTable>, normalKey: string, premiumKey: string, uplift: real, k: string)
    requires normalKey != premiumKey
    ensures Dicts.Get(WithPartner(d, normal, normalKey, premiumKey, uplift), k) ==
      if normal.Some? && k == normalKey then normal
      else if normal.Some? && k == premiumKey then PremiumOption(normal, uplift)
      else Dicts.Get(d, k)
  {
    if normal.Some? {
      Dicts.PutGet(d, normalKey, normal.value);
      Dicts.PutGet(Dicts.Put(d, normalKey, normal.value), premiumKey, PremiumTable(normal.value, uplift));
    }
  }

  /** The six keys a row's residual data can hold. */
  const OptionKeys: seq<string> := ["west_normal", "west_premium", "aps_normal", "aps_premium", "vgs_normal", "vgs_premium"]

  /** Reading a row's residual data one key at a time. */
  lemma VehicleOptionsGet(row: Row, tables: Tables, adjustments: Dicts.Dict<int, real>, k: string)
    ensures Dicts.Get(VehicleOptions(row, tables, adjustments), k) ==
      var west := NormalOption(At(row, 9), tables.west, adjustments);
      var aps := NormalOption(At(row, 11), tables.aps, adjustments);
      var vgs := NormalOption(At(row, 12), tables.vgs, adjustments);
      if vgs.Some? && k == "vgs_normal" then vgs
      else if vgs.Some? && k == "vgs_premium" then PremiumOption(vgs, 0.06)
      else if aps.Some? && k == "aps_normal" then aps
      else if aps.Some? && k == "aps_premium" then PremiumOption(aps, 0.08)
      else if west.Some? && k == "west_normal" then west
      else if west.Some? && k == "west_premium" then PremiumOption(west, 0.08)
      else None
  {
    var west := WithPartner([], NormalOption(At(row, 9), tables.west, adjustments), "west_normal", "west_premium", 0.08);
    var aps := WithPartner(west, NormalOption(At(row, 11), tables.aps, adjustments), "aps_normal", "aps_premium", 0.08);
    WithPartnerGet([], NormalOption(At(row, 9), tables.west, adjustments), "west_normal", "west_premium", 0.08, k);
    WithPartnerGet(west, NormalOption(At(row, 11), tables.aps, adjustments), "aps_normal", "aps_premium", 0.08, k);
    WithPartnerGet(aps, NormalOption(At(row, 12), tables.vgs, adjustments), "vgs_normal", "vgs_premium", 0.06, k);
  }

  /**
   * A row's residual data holds a partner's normal table exactly when its
   * grade cell is filled and yields a table, and then also the premium table
   * that uplifts it (8 % for West and APS, 6 % for VGS); it holds no other key.
   */
  lemma VehicleOptionsSpec(row: Row, tables: Tables, adjustments: Dicts.Dict<int, real>, k: string)
    ensures var d := VehicleOptions(row, tables, adjustments);
      Dicts.Get(d, "west_normal") == NormalOption(At(row, 9), tables.west, adjustments) &&
      Dicts.Get(d, "west_premium") == PremiumOption(NormalOption(At(row, 9), tables.west, adjustments), 0.08) &&
      Dicts.Get(d, "aps_normal") == NormalOption(At(row, 11), tables.aps, adjustments) &&
      Dicts.Get(d, "aps_premium") == PremiumOption(NormalOption(At(row, 11), tables.aps, adjustments), 0.08) &&
      Dicts.Get(d, "vgs_normal") == NormalOption(At(row, 12), tables.vgs, adjustments) &&
      Dicts.Get(d, "vgs_premium") == PremiumOption(NormalOption(At(row, 12), tables.vgs, adjustments), 0.06)
    ensures Dicts.HasKey(VehicleOptions(row, tables, adjustments), k) ==> k in OptionKeys
  {
    VehicleOptionsGet(row, tables, adjustments, "west_normal");
    VehicleOptionsGet(row, tables, adjustments, "west_premium");
    VehicleOptionsGet(row, tables, adjustments, "aps_normal");
    VehicleOptionsGet(row, tables, adjustments, "aps_premium");
    VehicleOptionsGet(row, tables, adjustments, "vgs_normal");
    VehicleOptionsGet(row, tables, adjustments, "vgs_premium");
    VehicleOptionsGet(row, tables, adjustments, k);
  }

  /** The ids of the listed rows, in order. */
  function ListedIds(rows: seq<Row>): seq<string> {
    Lists.FilterMap(rows, Listed, VehicleId)
  }

  /** A vehicle id is in the master exactly when some listed row has it. */
  lemma {:induction false} ExtractedKeys(rows: seq<Row>, tables: Tables, adjustments: Dicts.Dict<int, real>, id: string)
    ensures Dicts.HasKey(Extracted(rows, tables, adjustments).master, id) <==> id in ListedIds(rows)
  {
    if |rows| > 0 {
      var init := rows[..|rows| - 1];
      var row := rows[|rows| - 1];
      ExtractedKeys(init, tables, adjustments, id);
      if Listed(row) {
        Dicts.PutKeys(Extracted(init, tables, adjustments).master, VehicleId(row), VehicleRecord(row));
      }
    }
  }

  /** Only vehicles in the master have residual tables. */
  lemma {:induction false} ResidualsInMaster(rows: seq<Row>, tables: Tables, adjustments: Dicts.Dict<int, real>, id: string)
    ensures Dicts.HasKey(Extracted(rows, tables, adjustments).residuals, id) ==>
      Dicts.HasKey(Extracted(rows, tables, adjustments).master, id)
  {
    if |rows| > 0 {
      var init := rows[..|rows| - 1];
      var row := rows[|rows| - 1];
      var e := Extracted(init, tables, adjustments);
      ResidualsInMaster(init, tables, adjustments, id);
      if Listed(row) {
        var options := VehicleOptions(row, tables, adjustments);
        Dicts.PutKeys(e.master, VehicleId(row), VehicleRecord(row));
        Dicts.PutKeys(e.residuals, VehicleId(row), options);
        assert Extracted(rows, tables, adjustments) == Extraction(
          Dicts.Put(e.master, VehicleId(row), VehicleRecord(row)),
          if options == [] then e.residuals else Dicts.Put(e.residuals, VehicleId(row), options));
      }
    }
  }

  /**
   * A later listed row with the same id replaces the master record, but its
   * residual tables replace the earlier ones only when it has any.
   */
  lemma LaterRowReplaces(rows: seq<Row>, row: Row, tables: Tables, adjustments: Dicts.Dict<int, real>)
    requires Listed(row)
    ensures var e := Extracted(rows + [row], tables, adjustments);
      Dicts.Get(e.master, VehicleId(row)) == Some(VehicleRecord(row)) &&
      Dicts.Get(e.residuals, VehicleId(row)) ==
        if VehicleOptions(row, tables, adjustments) == []
        then Dicts.Get(Extracted(rows, tables, adjustments).residuals, VehicleId(row))
        else Some(VehicleOptions(row, tables, adjustments))
  {
    assert (rows + [row])[..|rows|] == rows;
    var e := Extracted(rows, tables, adjustments);
    Dicts.PutGet(e.master, VehicleId(row), VehicleRecord(row));
    Dicts.PutGet(e.residuals, VehicleId(row), VehicleOptions(row, tables, adjustments));
  }

  /** The import flag: a text maker outside the five domestic names, or a maker that is not text. */
  lemma ImportRule()
    ensures !IsImport(Str("현대")) && !IsImport(Str("KGM")) && !IsImport(Str("쌍용"))
    ensures IsImport(Str("BMW")) && IsImport(Str("르노코리아")) && IsImport(Num(1.0, "1"))
  {
  }
}
