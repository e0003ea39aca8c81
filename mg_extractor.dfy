/**
 * The MG Capital workbook extractor: the SNK and APS grade tables of the
 * residual map sheet, the vehicle master of the vehicle database sheet, and
 * per vehicle an SNK normal table and, where the vehicle allows it, an SNK
 * premium table.
 */
module MgExtractor {
  import opened Wrappers
  import opened Numeric
  import opened Cells
  import opened RateTables
  import Text
  import Dicts
  import Lists
  import MeritzExtractor

  // ----- _parse_grade_table -----

  /** Where a grade table sits on the residual map sheet (rows and columns counted from 1). */
  datatype Layout = Layout(
    nameRow: int, nameCol: int,
    gradeRow: int, gradeColStart: int, gradeColEnd: int,
    dataStartRow: int, dataEndRow: int, periodCol: int)

  /** The SNK table: name in A1, grades in C2:AD2, term rows 3 to 7 with the term in column B. */
  const SnkLayout := Layout(1, 1, 2, 3, 30, 3, 7, 2)

  /** The APS table: name in A12, grades in C13:AD13, term rows 14 to 18. */
  const ApsLayout := Layout(12, 1, 13, 3, 30, 14, 18, 2)

  /** term → one slot per grade, in grade order. */
  type SlotTable = Dicts.Dict<int, seq<Option<real>>>

  /** A parsed grade table: its name cell, its grades and the rate slots of each term. */
  datatype GradeTable = GradeTable(name: Cell, grades: seq<string>, rates: SlotTable)

  /**
   * The grade names of a header: the texts of its cells up to, and not
   * including, the first empty cell.
   */
  function HeaderGrades(cells: Row): (grades: seq<string>)
    ensures |grades| <= |cells|
    ensures forall i :: 0 <= i < |grades| ==> Truthy(cells[i]) && grades[i] == CellText(cells[i])
    ensures |grades| < |cells| ==> !Truthy(cells[|grades|])
  {
    if |cells| == 0 || !Truthy(cells[0]) then [] else [CellText(cells[0])] + HeaderGrades(cells[1..])
  }

  /** A rate slot: the rate rounded to four places when the cell is a number, None otherwise. */
  function Slot(c: Cell): (slot: Option<real>)
    ensures slot.Some? <==> c.Num?
    ensures slot.Some? ==> slot.value == Round4(c.value) && FourPlaces(slot.value)
  {
    if c.Num? then Some(Round4(c.value)) else None
  }

  /** The slots of sheet row r for n grades, read from the first grade column on. */
  function Slots(grid: seq<Row>, r: int, col: int, n: nat): (slots: seq<Option<real>>)
    ensures |slots| == n
    ensures forall k :: 0 <= k < n ==> (slots[k].Some? <==> CellAt(grid, r, col + k).Num?)
    ensures forall k :: 0 <= k < n && slots[k].Some? ==> slots[k].value == Round4(CellAt(grid, r, col + k).value)
  {
    var slots := seq(n, k => Slot(CellAt(grid, r, col + k)));
    assert forall k :: 0 <= k < n ==> slots[k] == Slot(CellAt(grid, r, col + k));
    slots
  }

  /** The term of a data row: a non-zero number, cut to its integer part. */
  function RowPeriod(c: Cell): Option<int> {
    if c.Num? && c.value != 0.0 then Some(Trunc(c.value)) else None
  }

  /** The data rows from the first one up to `last`; a later row for the same term replaces an earlier one. */
  function PeriodRates(grid: seq<Row>, l: Layout, n: nat, last: int): SlotTable
    decreases last - l.dataStartRow + 1
  {
    if last < l.dataStartRow then []
    else
      var d := PeriodRates(grid, l, n, last - 1);
      match RowPeriod(CellAt(grid, last, l.periodCol))
      case None => d
      case Some(p) => Dicts.Put(d, p, Slots(grid, last, l.gradeColStart, n))
  }

  /** _parse_grade_table. */
  function GradeTableOf(grid: seq<Row>, l: Layout): GradeTable {
    var grades := HeaderGrades(Region(grid, l.gradeRow, l.gradeColStart, l.gradeColEnd));
    GradeTable(CellAt(grid, l.nameRow, l.nameCol), grades, PeriodRates(grid, l, |grades|, l.dataEndRow))
  }

  /** Every term has exactly one slot per grade. */
  predicate Aligned(t: GradeTable) {
    forall e :: e in t.rates ==> |e.1| == |t.grades|
  }

  /** The header loop, which stops at the first empty cell. */
  method ReadGrades(cells: Row) returns (grades: seq<string>)
    ensures grades == HeaderGrades(cells)
  {
    grades := [];
    var i := 0;
    while i < |cells|
      invariant 0 <= i <= |cells|
      invariant grades + HeaderGrades(cells[i..]) == HeaderGrades(cells)
    {
      if !Truthy(cells[i]) {
        break;
      }
      assert cells[i..][1..] == cells[i + 1..];
      grades := grades + [CellText(cells[i])];
      i := i + 1;
    }
    assert HeaderGrades(cells[i..]) == [];
  }

  /** The slot loop of one data row. */
  method ReadSlots(grid: seq<Row>, r: int, col: int, n: nat) returns (slots: seq<Option<real>>)
    ensures slots == Slots(grid, r, col, n)
  {
    slots := [];
    for k := 0 to n
      invariant slots == Slots(grid, r, col, k)
    {
      assert Slots(grid, r, col, k + 1) == Slots(grid, r, col, k) + [Slot(CellAt(grid, r, col + k))];
      var rate := CellAt(grid, r, col + k);
      if rate.Num? {
        slots := slots + [Some(Round4(rate.value))];
      } else {
        slots := slots + [None];
      }
    }
  }

  /** _parse_grade_table. */
  method ParseGradeTable(grid: seq<Row>, l: Layout) returns (table: GradeTable)
    ensures table == GradeTableOf(grid, l)
    ensures Aligned(table)
  {
    var name := CellAt(grid, l.nameRow, l.nameCol);
    var grades := ReadGrades(Region(grid, l.gradeRow, l.gradeColStart, l.gradeColEnd));
    var rates: SlotTable := [];
    var r := l.dataStartRow;
    while r <= l.dataEndRow
      invariant l.dataStartRow <= r <= l.dataEndRow + 1 || (r == l.dataStartRow && l.dataEndRow < l.dataStartRow)
      invariant rates == PeriodRates(grid, l, |grades|, r - 1)
    {
      var period := CellAt(grid, r, l.periodCol);
      if period.Num? && period.value != 0.0 {
        var slots := ReadSlots(grid, r, l.gradeColStart, |grades|);
        rates := Dicts.Put(rates, Trunc(period.value), slots);
      }
      r := r + 1;
    }
    table := GradeTable(name, grades, rates);
    PeriodRatesAligned(grid, l, |grades|, l.dataEndRow);
  }

  /** _extract_grade_tables: the SNK and APS tables. */
  method ExtractGradeTables(grid: seq<Row>) returns (snk: GradeTable, aps: GradeTable)
    ensures snk == GradeTableOf(grid, SnkLayout) && aps == GradeTableOf(grid, ApsLayout)
    ensures Aligned(snk) && Aligned(aps)
  {
    snk := ParseGradeTable(grid, SnkLayout);
    aps := ParseGradeTable(grid, ApsLayout);
  }

  lemma {:induction false} PeriodRatesAligned(grid: seq<Row>, l: Layout, n: nat, last: int)
    ensures forall e :: e in PeriodRates(grid, l, n, last) ==> |e.1| == n
    decreases last - l.dataStartRow + 1
  {
    if last >= l.dataStartRow {
      PeriodRatesAligned(grid, l, n, last - 1);
      match RowPeriod(CellAt(grid, last, l.periodCol))
      case None =>
      case Some(p) =>
        Dicts.PutEntries(PeriodRates(grid, l, n, last - 1), p, Slots(grid, last, l.gradeColStart, n));
    }
  }

  /** A term has slots exactly when some data row up to `last` carries it as a non-zero number. */
  lemma {:induction false} PeriodRatesKeys(grid: seq<Row>, l: Layout, n: nat, last: int, p: int)
    ensures Dicts.HasKey(PeriodRates(grid, l, n, last), p) <==>
      exists r :: l.dataStartRow <= r <= last && RowPeriod(CellAt(grid, r, l.periodCol)) == Some(p)
    decreases last - l.dataStartRow + 1
  {
    if last >= l.dataStartRow {
      PeriodRatesKeys(grid, l, n, last - 1, p);
      var here := RowPeriod(CellAt(grid, last, l.periodCol));
      if here.Some? {
        Dicts.PutKeys(PeriodRates(grid, l, n, last - 1), here.value, Slots(grid, last, l.gradeColStart, n));
      }
    }
  }

  /** A term's slots are those of the last data row that carries it. */
  lemma {:induction false} PeriodRatesLast(grid: seq<Row>, l: Layout, n: nat, last: int, p: int, r: int)
    requires l.dataStartRow <= r <= last && RowPeriod(CellAt(grid, r, l.periodCol)) == Some(p)
    requires forall r' :: r < r' <= last ==> RowPeriod(CellAt(grid, r', l.periodCol)) != Some(p)
    ensures Dicts.Get(PeriodRates(grid, l, n, last), p) == Some(Slots(grid, r, l.gradeColStart, n))
    decreases last - r
  {
    var d := PeriodRates(grid, l, n, last - 1);
    var here := RowPeriod(CellAt(grid, last, l.periodCol));
    var slots := Slots(grid, last, l.gradeColStart, n);
    if last == r {
      assert PeriodRates(grid, l, n, last) == Dicts.Put(d, p, slots);
      Dicts.PutGet(d, p, slots);
    } else {
      PeriodRatesLast(grid, l, n, last - 1, p, r);
      if here.Some? {
        assert PeriodRates(grid, l, n, last) == Dicts.Put(d, here.value, slots);
        Dicts.PutGetOther(d, here.value, slots, p);
      } else {
        assert PeriodRates(grid, l, n, last) == d;
      }
    }
  }

  /** The header stops at the first empty cell: a grade after an empty cell is never read. */
  lemma GradesStopAtGap()
    ensures HeaderGrades([Str("A"), Str("B"), Empty, Str("C")]) == ["A", "B"]
    ensures HeaderGrades([Num(1.0, "1"), Str("")]) == ["1"]
  {
    assert [Str("A"), Str("B"), Empty, Str("C")][1..] == [Str("B"), Empty, Str("C")];
    assert [Str("B"), Empty, Str("C")][1..] == [Empty, Str("C")];
    assert [Num(1.0, "1"), Str("")][1..] == [Str("")];
  }

  // ----- _extract_vehicle_master -----

  /** The brands the MG extractor counts as domestic (it also lists 르노코리아). */
  const DomesticBrands: seq<string> := ["현대", "기아", "제네시스", "쌍용", "르노코리아", "KGM"]

  /** A vehicle master record as the MG extractor writes it; the sheet's own cells are kept as cells. */
  datatype Vehicle = Vehicle(
    brand: string, model: string, trim: string, displayName: string,
    displacement: Cell, engineCc: int, fuelType: string, vehicleType: Cell, price: Cell,
    isImport: bool, gradeSnk: Cell, premiumAvailable: Cell)

  /** A header row holds the texts BRAND and MODEL among its first 19 columns. */
  predicate IsHeaderRow(grid: seq<Row>, r: int) {
    Str("BRAND") in Region(grid, r, 1, 19) && Str("MODEL") in Region(grid, r, 1, 19)
  }

  /** The first header row among rows from .. 9. */
  function FirstHeaderRow(grid: seq<Row>, from: int): (h: Option<int>)
    requires from >= 1
    ensures h.Some? ==> from <= h.value <= 9 && IsHeaderRow(grid, h.value)
    ensures h.Some? ==> forall r :: from <= r < h.value ==> !IsHeaderRow(grid, r)
    ensures h.None? ==> forall r :: from <= r <= 9 ==> !IsHeaderRow(grid, r)
    decreases 10 - from
  {
    if from > 9 then None
    else if IsHeaderRow(grid, from) then Some(from)
    else FirstHeaderRow(grid, from + 1)
  }

  /** `"hybrid" in model.lower() or "plug" in model.lower()`. */
  predicate HybridName(model: string) {
    Text.Contains(Text.Lower(model), "hybrid") || Text.Contains(Text.Lower(model), "plug")
  }

  /** The fuel type guessed from the engine size and the model name. */
  function FuelType(engineCc: int, model: string): string {
    if engineCc == 0 then "전기"
    else if HybridName(model) then "하이브리드"
    else "휘발유/경유"
  }

  /** `int(displacement) if displacement and isinstance(displacement, (int, float)) else 0`. */
  function EngineCc(displacement: Cell): int {
    if displacement.Num? && displacement.value != 0.0 then Trunc(displacement.value) else 0
  }

  /** `brand not in domestic_brands`. */
  predicate IsImport(brand: Cell) {
    !(brand.Str? && brand.s in DomesticBrands)
  }

  /** A data row lists a vehicle when its brand (column E) and model (F) are filled. */
  predicate Listed(grid: seq<Row>, r: int) {
    Truthy(CellAt(grid, r, 5)) && Truthy(CellAt(grid, r, 6))
  }

  /**
   * _generate_vehicle_id(brand, model): "brand_model" with spaces, '/' and
   * '-' turned into underscores, parentheses dropped, upper-cased. The id
   * holds none of those five characters and no lower-case ASCII letter.
   */
  function GenerateVehicleId(brand: Cell, model: Cell): (id: string)
    ensures ' ' !in id && '(' !in id && ')' !in id && '/' !in id && '-' !in id
    ensures forall i :: 0 <= i < |id| ==> !('a' <= id[i] <= 'z')
  {
    var raw := CellText(brand) + "_" + CellText(model);
    var spaced := Text.Replace(raw, ' ', "_");
    var unopened := Text.Replace(spaced, '(', "");
    var unclosed := Text.Replace(unopened, ')', "");
    var slashed := Text.Replace(unclosed, '/', "_");
    var dashed := Text.Replace(slashed, '-', "_");
    Text.UpperKeepsAbsent(dashed, ' ');
    Text.UpperKeepsAbsent(dashed, '(');
    Text.UpperKeepsAbsent(dashed, ')');
    Text.UpperKeepsAbsent(dashed, '/');
    Text.UpperKeepsAbsent(dashed, '-');
    Text.Upper(dashed)
  }

  /** A brand and model without those characters give just "BRAND_MODEL" upper-cased. */
  lemma GenerateVehicleIdPlain(brand: Cell, model: Cell)
    requires var raw := CellText(brand) + "_" + CellText(model);
      ' ' !in raw && '(' !in raw && ')' !in raw && '/' !in raw && '-' !in raw
    ensures GenerateVehicleId(brand, model) == Text.Upper(CellText(brand) + "_" + CellText(model))
  {
  }

  /** The record of data row r. */
  function VehicleAt(grid: seq<Row>, r: int): Vehicle {
    var brand := CellAt(grid, r, 5);
    var model := CellText(CellAt(grid, r, 6));
    var parts := Text.SplitOnce(model, ' ');
    var displacement := CellAt(grid, r, 7);
    Vehicle(
      CellText(brand), parts[0], if |parts| > 1 then parts[1] else "",
      CellText(brand) + " " + model,
      displacement, EngineCc(displacement), FuelType(EngineCc(displacement), model),
      CellAt(grid, r, 8), CellAt(grid, r, 9), IsImport(brand),
      CellAt(grid, r, 19), CellAt(grid, r, 16))
  }

  /** The id of data row r. */
  function RowId(grid: seq<Row>, r: int): string {
    GenerateVehicleId(CellAt(grid, r, 5), CellAt(grid, r, 6))
  }

  /** Data row r lists a vehicle with this id. */
  predicate RowHasId(grid: seq<Row>, r: int, id: string) {
    Listed(grid, r) && RowId(grid, r) == id
  }

  /** The data rows after the header up to `last`; a later row with the same id replaces an earlier one. */
  function MasterRows(grid: seq<Row>, h: int, last: int): Dicts.Dict<string, Vehicle>
    decreases last - h
  {
    if last <= h then []
    else
      var d := MasterRows(grid, h, last - 1);
      if Listed(grid, last) then Dicts.Put(d, RowId(grid, last), VehicleAt(grid, last)) else d
  }

  /** _extract_vehicle_master: a ValueError when rows 1 to 9 hold no header. */
  function VehicleMaster(grid: seq<Row>): Result<Dicts.Dict<string, Vehicle>, string> {
    match FirstHeaderRow(grid, 1)
    case None => Failure("차량DB 헤더를 찾을 수 없습니다")
    case Some(h) => Success(MasterRows(grid, h, |grid|))
  }

  /** The header search, which stops at the first header row. */
  method FindHeaderRow(grid: seq<Row>) returns (h: Option<int>)
    ensures h == FirstHeaderRow(grid, 1)
  {
    h := None;
    var r := 1;
    while r < 10
      invariant 1 <= r <= 10
      invariant FirstHeaderRow(grid, r) == FirstHeaderRow(grid, 1)
    {
      var values := Region(grid, r, 1, 19);
      if Str("BRAND") in values && Str("MODEL") in values {
        h := Some(r);
        return;
      }
      r := r + 1;
    }
  }

  /** _extract_vehicle_master. */
  method ExtractVehicleMaster(grid: seq<Row>) returns (result: Result<Dicts.Dict<string, Vehicle>, string>)
    ensures result == VehicleMaster(grid)
    ensures result.Success? ==> Dicts.UniqueKeys(result.value)
  {
    var header := FindHeaderRow(grid);
    if header.None? {
      return Failure("차량DB 헤더를 찾을 수 없습니다");
    }
    var h := header.value;
    var vehicles: Dicts.Dict<string, Vehicle> := [];
    var r := h + 1;
    while r <= |grid|
      invariant h + 1 <= r <= |grid| + 1 || (r == h + 1 && |grid| < h + 1)
      invariant vehicles == MasterRows(grid, h, r - 1)
    {
      if Listed(grid, r) {
        vehicles := Dicts.Put(vehicles, RowId(grid, r), VehicleAt(grid, r));
      }
      r := r + 1;
    }
    assert vehicles == MasterRows(grid, h, |grid|);
    MasterRowsUnique(grid, h, |grid|);
    result := Success(vehicles);
  }

  lemma {:induction false} MasterRowsUnique(grid: seq<Row>, h: int, last: int)
    ensures Dicts.UniqueKeys(MasterRows(grid, h, last))
    decreases last - h
  {
    if last > h {
      MasterRowsUnique(grid, h, last - 1);
      if Listed(grid, last) {
        Dicts.PutUnique(MasterRows(grid, h, last - 1), RowId(grid, last), VehicleAt(grid, last));
      }
    }
  }

  /** A vehicle id is in the master exactly when some listed data row after the header has it. */
  lemma {:induction false} MasterRowsKeys(grid: seq<Row>, h: int, last: int, id: string)
    ensures Dicts.HasKey(MasterRows(grid, h, last), id) <==> exists r :: h < r <= last && RowHasId(grid, r, id)
    decreases last - h
  {
    if last > h {
      MasterRowsKeys(grid, h, last - 1, id);
      var d := MasterRows(grid, h, last - 1);
      if Listed(grid, last) {
        var v := VehicleAt(grid, last);
        assert MasterRows(grid, h, last) == Dicts.Put(d, RowId(grid, last), v);
        Dicts.PutKeys(d, RowId(grid, last), v);
      } else {
        assert MasterRows(grid, h, last) == d;
      }
      if exists r :: h < r <= last && RowHasId(grid, r, id) {
        var r :| h < r <= last && RowHasId(grid, r, id);
        if r == last {
          assert Listed(grid, last) && RowId(grid, last) == id;
        } else {
          assert exists r' :: h < r' <= last - 1 && RowHasId(grid, r', id);
        }
      }
      if Dicts.HasKey(MasterRows(grid, h, last), id) && !Dicts.HasKey(d, id) {
        assert RowHasId(grid, last, id);
      }
    }
  }

  /**
   * The model is split at its first space: the base model has no space and,
   * joined back with the trim, gives the whole model text; an electric
   * vehicle (no engine size) is never called a hybrid.
   */
  lemma VehicleAtSpec(grid: seq<Row>, r: int)
    ensures var v := VehicleAt(grid, r);
      ' ' !in v.model &&
      (if ' ' in CellText(CellAt(grid, r, 6)) then v.model + " " + v.trim else v.model) == CellText(CellAt(grid, r, 6))
    ensures VehicleAt(grid, r).engineCc == 0 <==> VehicleAt(grid, r).fuelType == "전기"
    ensures VehicleAt(grid, r).isImport <==> !(CellAt(grid, r, 5).Str? && CellAt(grid, r, 5).s in DomesticBrands)
  {
  }

  /** The hybrid test ignores case: an upper-case model name is recognised like its lower-case form. */
  lemma FuelTypeIgnoresCase(engineCc: int, model: string)
    ensures FuelType(engineCc, model) == FuelType(engineCc, Text.Lower(model))
  {
    Text.LowerIdempotent(model);
  }

  /** The two extractors disagree about 르노코리아: domestic for MG, imported for Meritz. */
  lemma RenaultKoreaDomestic()
    ensures !IsImport(Str("르노코리아"))
    ensures "르노코리아" !in MeritzExtractor.DomesticMakers
  {
  }

  // ----- _calculate_vehicle_residuals -----

  /** The terms the SNK tables are generated for. */
  const SnkTerms: seq<int> := [12, 24, 36, 48, 60]

  /** _apply_mileage_adjustment_snk: a fixed step per mileage, with no clamping. */
  function SnkAdjustment(base: real, mileage: int): real {
    if mileage == 10000 then base + 0.005
    else if mileage == 15000 then base
    else if mileage == 20000 then base
    else if mileage == 30000 then base - 0.04
    else if mileage == 35000 then base - 0.02
    else base
  }

  /** A vehicle's SNK tables: the normal one, and the premium one when the vehicle allows it. */
  datatype SnkRates = SnkRates(normal: RateTable, premium: Option<RateTable>)

  /** `grade_snk and grade_snk in grades`: only filled text equal to a header grade matches. */
  predicate KnownGrade(grade: Cell, grades: seq<string>) {
    Truthy(grade) && grade.Str? && grade.s in grades
  }

  /**
   * The base rate of a term for the grade at position idx, when the term is
   * listed and its slot is filled. The length guard never fails on an
   * aligned table, where the source's indexing cannot raise.
   */
  function SnkBase(table: GradeTable, idx: nat, term: int): Option<real> {
    match Dicts.Get(table.rates, term)
    case None => None
    case Some(slots) => if idx < |slots| then slots[idx] else None
  }

  /** One term's rates: each mileage gets the adjusted base rate rounded to four places. */
  function SnkMileageRates(base: real, mileages: seq<int>): Rates {
    Dicts.FromKeys(mileages, (m: int) => Round4(SnkAdjustment(base, m)))
  }

  /** The terms among `terms` with a base rate for the grade, each with its mileage rates. */
  function SnkNormal(table: GradeTable, idx: nat, terms: seq<int>): RateTable
    decreases |terms|
  {
    if |terms| == 0 then []
    else
      var r := SnkNormal(table, idx, terms[..|terms| - 1]);
      var term := terms[|terms| - 1];
      match SnkBase(table, idx, term)
      case None => r
      case Some(base) => Dicts.Put(r, term, SnkMileageRates(base, StandardMileages))
  }

  /** A vehicle's entry: None without a known grade; the premium table only when column P reads Y. */
  function VehicleResiduals(v: Vehicle, table: GradeTable): Option<SnkRates>
    requires Aligned(table)
  {
    if !KnownGrade(v.gradeSnk, table.grades) then None
    else
      var normal := SnkNormal(table, Lists.IndexOf(table.grades, v.gradeSnk.s), SnkTerms);
      Some(SnkRates(normal, if v.premiumAvailable == Str("Y") then Some(PremiumTable(normal, 0.08)) else None))
  }

  /** _calculate_vehicle_residuals: every vehicle of the master, in order, with its entry. */
  function AllResiduals(master: Dicts.Dict<string, Vehicle>, table: GradeTable): Dicts.Dict<string, Option<SnkRates>>
    requires Aligned(table)
  {
    Dicts.MapValues(master, (v: Vehicle) => VehicleResiduals(v, table))
  }

  /** The mileage loop of one term. */
  method SnkMileageLoop(base: real) returns (rates: Rates)
    ensures rates == SnkMileageRates(base, StandardMileages)
  {
    rates := [];
    var mileages := StandardMileages;
    for k := 0 to |mileages|
      invariant rates == SnkMileageRates(base, mileages[..k])
    {
      assert mileages[..k + 1][..k] == mileages[..k];
      var m := mileages[k];
      rates := Dicts.Put(rates, m, Round4(SnkAdjustment(base, m)));
    }
    assert mileages[..|mileages|] == mileages;
  }

  /** The term loop of one vehicle. */
  method SnkNormalLoop(table: GradeTable, idx: nat) returns (normal: RateTable)
    requires Aligned(table) && idx < |table.grades|
    ensures normal == SnkNormal(table, idx, SnkTerms)
  {
    normal := [];
    var terms := SnkTerms;
    for i := 0 to |terms|
      invariant normal == SnkNormal(table, idx, terms[..i])
    {
      assert terms[..i + 1][..i] == terms[..i];
      var term := terms[i];
      var slots := Dicts.Get(table.rates, term);
      if slots.Some? {
        var base: Option<real> := slots.value[idx];
        if base.Some? {
          var rates := SnkMileageLoop(base.value);
          normal := Dicts.Put(normal, term, rates);
        }
      }
    }
    assert terms[..|terms|] == terms;
  }

  /** One vehicle's entry. */
  method VehicleResidualsOf(v: Vehicle, table: GradeTable) returns (entry: Option<SnkRates>)
    requires Aligned(table)
    ensures entry == VehicleResiduals(v, table)
  {
    if !Truthy(v.gradeSnk) || !(v.gradeSnk.Str? && v.gradeSnk.s in table.grades) {
      return None;
    }
    var idx := Lists.IndexOf(table.grades, v.gradeSnk.s);
    var normal := SnkNormalLoop(table, idx);
    var premium: Option<RateTable> := None;
    if v.premiumAvailable == Str("Y") {
      SnkNormalShape(table, idx, SnkTerms);
      var p := ApplyPremium(normal, 0.08);
      premium := Some(p);
    }
    entry := Some(SnkRates(normal, premium));
  }

  /** _calculate_vehicle_residuals. */
  method CalculateVehicleResiduals(master: Dicts.Dict<string, Vehicle>, table: GradeTable)
    returns (residuals: Dicts.Dict<string, Option<SnkRates>>)
    requires Dicts.UniqueKeys(master)
    requires Aligned(table)
    ensures residuals == AllResiduals(master, table)
  {
    residuals := [];
    for i := 0 to |master|
      invariant residuals == AllResiduals(master[..i], table)
    {
      var (id, v) := master[i];
      assert Dicts.Keys(residuals) == Dicts.Keys(master[..i]) by {
        Dicts.MapValuesKeys(master[..i], (v: Vehicle) => VehicleResiduals(v, table));
      }
      var entry := VehicleResidualsOf(v, table);
      Dicts.PutNew(residuals, id, entry);
      residuals := Dicts.Put(residuals, id, entry);
      assert master[..i + 1] == master[..i] + [master[i]];
    }
    assert master[..|master|] == master;
  }

  /** extract_all_data: the grade tables, the vehicle master, then every vehicle's entry. */
  method ExtractAllData(residualMap: seq<Row>, vehicleDb: seq<Row>)
    returns (result: Result<(Dicts.Dict<string, Vehicle>, Dicts.Dict<string, Option<SnkRates>>), string>)
    ensures VehicleMaster(vehicleDb).Failure? ==> result == Failure(VehicleMaster(vehicleDb).error)
    ensures VehicleMaster(vehicleDb).Success? ==>
      Aligned(GradeTableOf(residualMap, SnkLayout)) &&
      result == Success((VehicleMaster(vehicleDb).value,
        AllResiduals(VehicleMaster(vehicleDb).value, GradeTableOf(residualMap, SnkLayout))))
  {
    var snk, aps := ExtractGradeTables(residualMap);
    var master := ExtractVehicleMaster(vehicleDb);
    if master.Failure? {
      return Failure(master.error);
    }
    var residuals := CalculateVehicleResiduals(master.value, snk);
    result := Success((master.value, residuals));
  }

  /** A normal table has distinct terms and, within each term, distinct mileages. */
  lemma {:induction false} SnkNormalShape(table: GradeTable, idx: nat, terms: seq<int>)
    ensures Dicts.UniqueKeys(SnkNormal(table, idx, terms))
    ensures forall e :: e in SnkNormal(table, idx, terms) ==> Dicts.UniqueKeys(e.1)
  {
    if |terms| > 0 {
      var init := terms[..|terms| - 1];
      var term := terms[|terms| - 1];
      SnkNormalShape(table, idx, init);
      match SnkBase(table, idx, term)
      case None =>
      case Some(base) =>
        Dicts.FromKeysShape(StandardMileages, (m: int) => Round4(SnkAdjustment(base, m)));
        Dicts.PutUnique(SnkNormal(table, idx, init), term, SnkMileageRates(base, StandardMileages));
        Dicts.PutEntries(SnkNormal(table, idx, init), term, SnkMileageRates(base, StandardMileages));
    }
  }

  /** A mileage has a rate exactly when it is one of the mileages, and it is the rounded adjusted base rate. */
  lemma SnkMileageRatesGet(base: real, mileages: seq<int>, m: int)
    ensures Dicts.Get(SnkMileageRates(base, mileages), m) ==
      if m in mileages then Some(Round4(SnkAdjustment(base, m))) else None
  {
    Dicts.FromKeysGet(mileages, (m: int) => Round4(SnkAdjustment(base, m)), m);
  }

  /** A term has rates exactly when it is one of the terms and its slot for the grade is filled. */
  lemma {:induction false} SnkNormalGet(table: GradeTable, idx: nat, terms: seq<int>, term: int)
    ensures Dicts.Get(SnkNormal(table, idx, terms), term) ==
      if term in terms && SnkBase(table, idx, term).Some?
      then Some(SnkMileageRates(SnkBase(table, idx, term).value, StandardMileages))
      else None
  {
    if |terms| > 0 {
      var init := terms[..|terms| - 1];
      var last := terms[|terms| - 1];
      SnkNormalGet(table, idx, init, term);
      assert terms == init + [last];
      if SnkBase(table, idx, last).Some? {
        Dicts.PutGet(SnkNormal(table, idx, init), last, SnkMileageRates(SnkBase(table, idx, last).value, StandardMileages));
      }
    }
  }

  /**
   * A vehicle has no entry exactly when its grade cell is empty, not text,
   * or not a header grade. Otherwise its normal table holds exactly the
   * terms 12 to 60 whose slot for the grade's first header position is
   * filled, each with the four standard mileages at the SNK-adjusted base
   * rate rounded to four places; it has a premium table exactly when column
   * P reads Y, and that table uplifts the normal one by 8 %, capped at 95 %.
   */
  lemma VehicleResidualsSpec(v: Vehicle, table: GradeTable, term: int, mileage: int)
    requires Aligned(table)
    ensures VehicleResiduals(v, table).None? <==> !KnownGrade(v.gradeSnk, table.grades)
    ensures VehicleResiduals(v, table).Some? ==>
      var idx := Lists.IndexOf(table.grades, v.gradeSnk.s);
      var e := VehicleResiduals(v, table).value;
      table.grades[idx] == v.gradeSnk.s && (forall i :: 0 <= i < idx ==> table.grades[i] != v.gradeSnk.s) &&
      (Dicts.HasKey(e.normal, term) <==> term in SnkTerms && SnkBase(table, idx, term).Some?) &&
      (term in SnkTerms && SnkBase(table, idx, term).Some? ==>
        Dicts.Get(Dicts.Get(e.normal, term).value, mileage) ==
          if mileage in StandardMileages then Some(Round4(SnkAdjustment(SnkBase(table, idx, term).value, mileage))) else None) &&
      (e.premium.Some? <==> v.premiumAvailable == Str("Y")) &&
      (e.premium.Some? ==> e.premium.value == PremiumTable(e.normal, 0.08))
  {
    if KnownGrade(v.gradeSnk, table.grades) {
      var idx := Lists.IndexOf(table.grades, v.gradeSnk.s);
      SnkNormalGet(table, idx, SnkTerms, term);
      if SnkBase(table, idx, term).Some? {
        SnkMileageRatesGet(SnkBase(table, idx, term).value, StandardMileages, mileage);
      }
    }
  }

  /**
   * Read back through the sheet: the base rate of a term for the grade at
   * position idx is the rounded number in that grade's column of the last
   * data row carrying the term (None when that cell is not a number).
   */
  lemma ParsedBase(grid: seq<Row>, l: Layout, idx: nat, p: int, r: int)
    requires idx < |GradeTableOf(grid, l).grades|
    requires l.dataStartRow <= r <= l.dataEndRow && RowPeriod(CellAt(grid, r, l.periodCol)) == Some(p)
    requires forall r' :: r < r' <= l.dataEndRow ==> RowPeriod(CellAt(grid, r', l.periodCol)) != Some(p)
    ensures SnkBase(GradeTableOf(grid, l), idx, p) == Slot(CellAt(grid, r, l.gradeColStart + idx))
  {
    var t := GradeTableOf(grid, l);
    PeriodRatesLast(grid, l, |t.grades|, l.dataEndRow, p, r);
  }

  /** The SNK step: at most +0.5 % and at least −4 %, and no change except at 10 000, 30 000 and 35 000 km. */
  lemma SnkAdjustmentRange(base: real, mileage: int)
    ensures base - 0.04 <= SnkAdjustment(base, mileage) <= base + 0.005
    ensures mileage != 10000 && mileage != 30000 && mileage != 35000 ==> SnkAdjustment(base, mileage) == base
    ensures SnkAdjustment(base, mileage) > base <==> mileage == 10000
  {
  }

  /** Without clamping, a high base rate yields a normal rate above the 95 % the premium is capped at. */
  lemma PremiumCanFallBelowNormal()
    ensures Round4(SnkAdjustment(0.95, 10000)) == 0.955
    ensures Uplift(0.955, 0.08) == 0.95
  {
    assert FourPlaces(0.955);
    Round4OfFourPlaces(0.955);
    assert FourPlaces(0.95);
    Round4OfFourPlaces(0.95);
  }
}
