/**
 * The all-capitals comparison of the quoting screen: for every capital with
 * residual data, find its record of the chosen vehicle, resolve a residual
 * rate through the preferred-then-fallback grade sequence, resolve the
 * interest rate, price the lease with that capital's calculator, and collect
 * one entry per capital, with a failure entry where the iteration raised and
 * no entry where neither grade has data. The entries are then sorted with
 * every priced entry first, cheapest first. Also the conversion of an MG
 * quote into the straight-line calculator's result layout.
 */
module Comparison {
  import opened Wrappers
  import opened JsonData
  import opened Sorting
  import Numeric
  import Dicts
  import Calculator
  import MgCalculator
  import InterestRates
  import ResidualRates

  /** The fields of one capital's vehicle record that the comparison reads. */
  datatype CapitalVehicle = CapitalVehicle(id: string, brand: string, isImport: bool, engineCc: int)

  /** What the catalog search by brand, model and trim gives for one capital. */
  datatype VehicleSearch =
    | Match(vehicle: CapitalVehicle)
      /** A falsy result: no record of this vehicle for the capital. */
    | NoMatch
      /** The search itself raised; `message` is str(e). */
    | SearchRaised(message: string)

  /** The chosen vehicle, its master-catalog price and the contract terms shared by every capital. */
  datatype Request = Request(brand: string, model: string, trim: string, price: int,
                             months: int, mileage: int, downPercent: real)

  /** Why one capital's iteration raised. */
  datatype Failure =
      /** The ValueError raised for a falsy search result. */
    | VehicleNotFound(message: string)
    | SearchFailed(message: string)
      /** A TypeError on the residual path: a null or non-object entry. */
    | ResidualTypeError
      /** The FileNotFoundError of a capital without a residual file. */
    | ResidualFileMissing
      /** The ValueError of a capital without interest-rate data. */
    | InterestFailed(message: string)
      /** Arithmetic on a stored residual entry that is not a number. */
    | RateNotNumeric
      /** The ZeroDivisionError of a down payment over an acquisition total of 0. */
    | ZeroAcquisitionCost

  /** The calculation details kept with a priced entry. */
  datatype Details =
    | MgDetails(quote: MgCalculator.MgQuote)
    | StandardDetails(downPayment: real, totalPayment: real, residualValue: int, acquisitionCost: real,
                      acquisitionTax: int, lease: Calculator.LeaseQuote)

  /** One element of comparison_results. */
  datatype Entry =
    | Priced(capital: string, capitalId: string, monthlyPayment: int, grade: string, residualRate: real,
             details: Details)
      /** The error entry, whose monthly payment, grade and residual rate are None. */
    | Failed(capital: string, capitalId: string, failure: Failure)

  const CapitalDisplay: map<string, string> := map[
    "meritz_capital" := "메리츠캐피탈",
    "nh_capital" := "NH농협캐피탈",
    "mg_capital" := "MG새마을금고",
    "compare" := "🔍 비교 (모든 캐피탈)"
  ]

  /** capital_display.get(cap_id, cap_id). */
  function DisplayName(capitalId: string): (name: string)
    ensures capitalId !in CapitalDisplay ==> name == capitalId
  {
    if capitalId in CapitalDisplay then CapitalDisplay[capitalId] else capitalId
  }

  function NotFoundMessage(r: Request): string {
    r.brand + " " + r.model + " " + r.trim + " 차량을 찾을 수 없습니다"
  }

  /** The high-residual grade tried first: SNK premium at MG, APS premium elsewhere. */
  function PreferredGrade(capitalId: string): string {
    if capitalId == "mg_capital" then "snk_premium" else "aps_premium"
  }

  /** The normal-residual grade tried after a ValueError. */
  function FallbackGrade(capitalId: string): string {
    if capitalId == "mg_capital" then "snk_normal" else "west_normal"
  }

  // ----- one capital -----

  /** The outcome of the two residual lookups. */
  datatype GradeChoice = Chosen(grade: string, rate: Json) | Skip | GradeFailed(failure: Failure)

  /** An exception of a residual lookup other than the ValueError of missing data. */
  function LookupFailure(r: ResidualRates.RateLookup): (f: Failure)
    requires r.Raised? || r.FileMissing?
  {
    if r.Raised? then ResidualTypeError else ResidualFileMissing
  }

  /**
   * The nested try blocks: a ValueError of the preferred grade moves to the
   * fallback grade, a ValueError of the fallback skips the capital, and any
   * other exception escapes to the per-capital handler.
   */
  function ChooseGrade(files: map<string, ResidualRates.RatesFile>, capitalId: string, vehicleId: string,
                       months: int, mileage: int): (c: GradeChoice)
    ensures c.Chosen? ==> c.grade == PreferredGrade(capitalId) || c.grade == FallbackGrade(capitalId)
  {
    var first := ResidualRates.LookupRate(files, capitalId, vehicleId, months, mileage, PreferredGrade(capitalId));
    if first.Found? then Chosen(PreferredGrade(capitalId), first.rate)
    else if first.NoData? then
      var second := ResidualRates.LookupRate(files, capitalId, vehicleId, months, mileage, FallbackGrade(capitalId));
      if second.Found? then Chosen(FallbackGrade(capitalId), second.rate)
      else if second.NoData? then Skip
      else GradeFailed(LookupFailure(second))
    else GradeFailed(LookupFailure(first))
  }

  /** get_interest_rate for this capital and vehicle at the master price (no high-credit flag). */
  function AnnualRate(capitalId: string, r: Request, v: CapitalVehicle): (rate: Result<real, string>)
    ensures rate.Success? ==> rate.value >= 0.0
  {
    if capitalId !in InterestRates.InterestRateTable then Failure(InterestRates.UnknownCapital(capitalId))
    else
      InterestRates.TableHasTiers(capitalId);
      Success(InterestRates.InterestRate(InterestRates.InterestRateTable[capitalId], r.price as real,
                                         Some(v.brand), v.isImport, v.engineCc == 0, r.months, false))
  }

  /** The number Python computes with: a float, or a bool as 0 / 1. */
  function NumericRate(j: Json): (n: Option<real>)
    ensures n.None? <==> !(j.JNum? || j.JBool?)
  {
    match j
    case JNum(x) => Some(x)
    case JBool(b) => Some(if b then 1.0 else 0.0)
    case _ => None
  }

  /** The down payment, as a share of the master price. */
  function DownPayment(r: Request): real {
    r.price as real * (r.downPercent / 100.0)
  }

  /** down / acquisition total when the down payment is positive, else 0; None for the division by zero. */
  function MgDownRate(down: real, total: int): (rate: Option<real>)
    ensures rate.None? <==> down > 0.0 && total == 0
    ensures rate.Some? && down > 0.0 ==> MgCalculator.Portion(total, rate.value) == down
    ensures down <= 0.0 ==> rate == Some(0.0)
  {
    if down > 0.0 then (if total == 0 then None else Some(down / total as real)) else Some(0.0)
  }

  /** The acquisition cost the comparison gives the straight-line calculator: price, 7 % of the supply price, 100,000. */
  function StandardAcquisitionCost(price: int): (c: real)
    ensures c == price as real + Calculator.AcquisitionTax(price as real, "") + 100000.0
  {
    price as real + Calculator.SupplyPrice(price as real) * 0.07 + 100000.0
  }

  /** The straight-line calculator's input for Meritz and NH. */
  function StandardInput(r: Request, v: CapitalVehicle, residualRate: real, annualRate: real): (i: Calculator.LeaseInput)
    requires r.months >= 1
    ensures Calculator.Computable(i)
  {
    Calculator.LeaseInput(r.price as real, r.months, DownPayment(r), residualRate, annualRate, 0.0, 100000.0,
                          Calculator.AutoTax(v.engineCc, false), Calculator.Simple,
                          Some(StandardAcquisitionCost(r.price)))
  }

  /** The calculation once the grade, the stored rate and the interest rate are known. */
  function PricedEntry(capitalId: string, r: Request, v: CapitalVehicle, grade: string, stored: Json,
                       annualRate: real): (e: Entry)
    requires r.months >= 1 && annualRate >= 0.0
    ensures e.capitalId == capitalId && e.capital == DisplayName(capitalId)
    ensures e.Priced? ==> e.grade == grade && Some(e.residualRate) == NumericRate(stored)
  {
    if capitalId == "mg_capital" then MgEntry(capitalId, r, v, grade, stored, annualRate)
    else StandardEntry(capitalId, r, v, grade, stored, annualRate)
  }

  /** The MG branch: the acquisition cost first, then the down-payment rate, then the balloon PMT quote. */
  function MgEntry(capitalId: string, r: Request, v: CapitalVehicle, grade: string, stored: Json,
                   annualRate: real): (e: Entry)
    requires r.months >= 1 && annualRate >= 0.0
    ensures e.capitalId == capitalId && e.capital == DisplayName(capitalId)
    ensures e.Priced? ==> e.grade == grade && Some(e.residualRate) == NumericRate(stored) && e.details.MgDetails?
    ensures e.Priced? ==> e.monthlyPayment == e.details.quote.monthlyPayment
    ensures e.Priced? ==> MgDownRate(DownPayment(r), MgAcquisition(r, v).total).Some?
    ensures e.Priced? ==>
      e.details.quote == MgCalculator.Calculate(r.price, e.residualRate, r.months, r.mileage, annualRate,
                                                MgDownRate(DownPayment(r), MgAcquisition(r, v).total).value, "서울",
                                                v.engineCc == 0, false, false)
  {
    var display := DisplayName(capitalId);
    match MgDownRate(DownPayment(r), MgAcquisition(r, v).total)
    case None => Failed(display, capitalId, ZeroAcquisitionCost)
    case Some(downRate) =>
      match NumericRate(stored)
      case None => Failed(display, capitalId, RateNotNumeric)
      case Some(rate) =>
        var q := MgCalculator.Calculate(r.price, rate, r.months, r.mileage, annualRate, downRate, "서울",
                                        v.engineCc == 0, false, false);
        Priced(display, capitalId, q.monthlyPayment, grade, rate, MgDetails(q))
  }

  /** The MG acquisition cost of the vehicle, registered in Seoul, neither hybrid nor company-leased. */
  function MgAcquisition(r: Request, v: CapitalVehicle): (c: MgCalculator.AcquisitionCost)
    ensures c.total == r.price + MgCalculator.AcquisitionTax(r.price, v.engineCc == 0, false, false)
  {
    MgCalculator.CalculateAcquisitionCost(r.price, "서울", v.engineCc == 0, false, false)
  }

  /** The Meritz / NH branch: the straight-line calculator on the given acquisition cost. */
  function StandardEntry(capitalId: string, r: Request, v: CapitalVehicle, grade: string, stored: Json,
                         annualRate: real): (e: Entry)
    requires r.months >= 1 && annualRate >= 0.0
    ensures e.capitalId == capitalId && e.capital == DisplayName(capitalId)
    ensures e.Priced? ==> e.grade == grade && Some(e.residualRate) == NumericRate(stored) && e.details.StandardDetails?
    ensures e.Priced? ==> e.monthlyPayment == e.details.lease.monthlyTotal
  {
    var display := DisplayName(capitalId);
    var down := DownPayment(r);
    match NumericRate(stored)
    case None => Failed(display, capitalId, RateNotNumeric)
    case Some(rate) =>
      var q := Calculator.CalculateOperatingLease(StandardInput(r, v, rate, annualRate));
      Priced(display, capitalId, q.monthlyTotal, grade, rate,
             StandardDetails(down, down + (q.monthlyTotal * r.months) as real, Numeric.Trunc(r.price as real * rate),
                             StandardAcquisitionCost(r.price), Numeric.Trunc(Calculator.SupplyPrice(r.price as real) * 0.07),
                             q))
  }

  /** One iteration of the loop over capitals: an entry, or None for the silent skip. */
  function CapitalOutcome(capitalId: string, r: Request, files: map<string, ResidualRates.RatesFile>,
                          find: string -> VehicleSearch): (o: Option<Entry>)
    requires r.months >= 1
    ensures o.Some? ==> o.value.capitalId == capitalId && o.value.capital == DisplayName(capitalId)
  {
    match find(capitalId)
    case SearchRaised(message) => Some(Failed(DisplayName(capitalId), capitalId, SearchFailed(message)))
    case NoMatch => Some(Failed(DisplayName(capitalId), capitalId, VehicleNotFound(NotFoundMessage(r))))
    case Match(v) =>
      match ChooseGrade(files, capitalId, v.id, r.months, r.mileage)
      case Skip => None
      case GradeFailed(f) => Some(Failed(DisplayName(capitalId), capitalId, f))
      case Chosen(grade, stored) =>
        match AnnualRate(capitalId, r, v)
        case Failure(message) => Some(Failed(DisplayName(capitalId), capitalId, InterestFailed(message)))
        case Success(annual) => Some(PricedEntry(capitalId, r, v, grade, stored, annual))
  }

  /** comparison_results before the sort: the outcomes of the capitals in order, skips dropped. */
  function Collected(capitals: seq<string>, r: Request, files: map<string, ResidualRates.RatesFile>,
                     find: string -> VehicleSearch): (results: seq<Entry>)
    requires r.months >= 1
    ensures |results| <= |capitals|
  {
    if |capitals| == 0 then []
    else
      var last := CapitalOutcome(capitals[|capitals| - 1], r, files, find);
      Collected(capitals[..|capitals| - 1], r, files, find) + (if last.Some? then [last.value] else [])
  }

  // ----- the sort -----

  /** The second half of the sort key: monthly_payment or float('inf'). */
  datatype Amount = Finite(won: int) | Infinite

  /** The sort key (monthly_payment is None, monthly_payment or inf); a payment of 0 is falsy and keys as inf. */
  function KeyOf(e: Entry): (bool, Amount) {
    if e.Failed? then (true, Infinite)
    else (false, if e.monthlyPayment == 0 then Infinite else Finite(e.monthlyPayment))
  }

  predicate AmountLe(a: Amount, b: Amount) {
    b.Infinite? || (a.Finite? && a.won <= b.won)
  }

  /** Tuple comparison of two keys: False before True, then the amounts. */
  predicate PaymentOrder(a: Entry, b: Entry) {
    var (fa, ka) := KeyOf(a);
    var (fb, kb) := KeyOf(b);
    (!fa && fb) || (fa == fb && AmountLe(ka, kb))
  }

  lemma PaymentOrderIsPreorder()
    ensures TotalPreorder(PaymentOrder)
  {
  }

  /** comparison_results after the stable sort. */
  function ComparisonResults(capitals: seq<string>, r: Request, files: map<string, ResidualRates.RatesFile>,
                             find: string -> VehicleSearch): seq<Entry>
    requires r.months >= 1
  {
    StableSort(Collected(capitals, r, files, find), PaymentOrder)
  }

  // ----- the loop -----

  /** The two residual lookups of the nested try blocks, through the shared cache. */
  method ResolveGrade(capitalId: string, vehicleId: string, months: int, mileage: int,
                      cache: ResidualRates.ResidualCache) returns (choice: GradeChoice)
    requires cache.Valid()
    modifies cache
    ensures cache.Valid()
    ensures choice == ChooseGrade(cache.files, capitalId, vehicleId, months, mileage)
    ensures cache.ReadThrough(old(cache.cache), old(cache.loadLog), capitalId)
  {
    var grade := PreferredGrade(capitalId);
    var lookup := cache.GetResidualRate(capitalId, vehicleId, months, mileage, grade);
    if lookup.NoData? {
      grade := FallbackGrade(capitalId);
      lookup := cache.GetResidualRate(capitalId, vehicleId, months, mileage, grade);
      if lookup.NoData? {
        return Skip;
      }
    }
    if lookup.Raised? || lookup.FileMissing? {
      return GradeFailed(LookupFailure(lookup));
    }
    return Chosen(grade, lookup.rate);
  }

  /** The try block of one capital, reading residual data through the shared cache. */
  method PriceCapital(capitalId: string, r: Request, cache: ResidualRates.ResidualCache,
                      find: string -> VehicleSearch) returns (entry: Option<Entry>)
    requires r.months >= 1 && cache.Valid()
    modifies cache
    ensures cache.Valid()
    ensures entry == CapitalOutcome(capitalId, r, cache.files, find)
    ensures find(capitalId).Match? ==> cache.ReadThrough(old(cache.cache), old(cache.loadLog), capitalId)
    ensures !find(capitalId).Match? ==> cache.cache == old(cache.cache) && cache.loadLog == old(cache.loadLog)
  {
    var display := DisplayName(capitalId);
    var search := find(capitalId);
    if search.SearchRaised? {
      return Some(Failed(display, capitalId, SearchFailed(search.message)));
    }
    if search.NoMatch? {
      return Some(Failed(display, capitalId, VehicleNotFound(NotFoundMessage(r))));
    }
    var v := search.vehicle;
    var choice := ResolveGrade(capitalId, v.id, r.months, r.mileage, cache);
    if choice.Skip? {
      return None;
    }
    if choice.GradeFailed? {
      return Some(Failed(display, capitalId, choice.failure));
    }
    var annual := InterestRates.GetInterestRate(capitalId, r.price as real, Some(v.brand), v.isImport,
                                                v.engineCc == 0, r.months, false);
    if annual.Failure? {
      return Some(Failed(display, capitalId, InterestFailed(annual.error)));
    }
    return Some(PricedEntry(capitalId, r, v, choice.grade, choice.rate, annual.value));
  }

  /** The capitals of the list whose vehicle the search finds and which have a residual file: the files the loop reads. */
  function ReadCapitals(files: map<string, ResidualRates.RatesFile>, capitals: seq<string>,
                        find: string -> VehicleSearch): set<string>
    decreases |capitals|
  {
    if capitals == [] then {}
    else
      var last := capitals[|capitals| - 1];
      ReadCapitals(files, capitals[..|capitals| - 1], find)
        + (if last in files && find(last).Match? then {last} else {})
  }

  /** A capital's file is read exactly when the capital is listed, has a file and its vehicle is found. */
  lemma {:induction false} ReadCapitalsMembers(files: map<string, ResidualRates.RatesFile>, capitals: seq<string>,
                                               find: string -> VehicleSearch, id: string)
    ensures id in ReadCapitals(files, capitals, find) <==> id in capitals && id in files && find(id).Match?
    decreases |capitals|
  {
    if capitals != [] {
      var init := capitals[..|capitals| - 1];
      ReadCapitalsMembers(files, init, find, id);
      assert capitals == init + [capitals[|capitals| - 1]];
    }
  }

  /** One more capital adds its file to the cache exactly when the loop reads it. */
  lemma ReadStep(keys0: set<string>, before: map<string, ResidualRates.RatesFile>,
                 after: map<string, ResidualRates.RatesFile>, files: map<string, ResidualRates.RatesFile>,
                 capitals: seq<string>, find: string -> VehicleSearch)
    requires capitals != []
    requires before.Keys == keys0 + ReadCapitals(files, capitals[..|capitals| - 1], find)
    requires var c := capitals[|capitals| - 1];
      if find(c).Match? && c !in before && c in files then after == before[c := files[c]] else after == before
    ensures after.Keys == keys0 + ReadCapitals(files, capitals, find)
  {
  }

  /** The loop over the available capitals followed by the in-place sort. */
  method CompareCapitals(capitals: seq<string>, r: Request, cache: ResidualRates.ResidualCache,
                         find: string -> VehicleSearch) returns (results: seq<Entry>)
    requires r.months >= 1 && cache.Valid()
    modifies cache
    ensures cache.Valid()
    ensures results == ComparisonResults(capitals, r, cache.files, find)
    ensures cache.cache.Keys == old(cache.cache).Keys + ReadCapitals(cache.files, capitals, find)
    ensures old(cache.loadLog) <= cache.loadLog
  {
    var collected: seq<Entry> := [];
    for i := 0 to |capitals|
      invariant cache.Valid()
      invariant cache.cache.Keys == old(cache.cache).Keys + ReadCapitals(cache.files, capitals[..i], find)
      invariant old(cache.loadLog) <= cache.loadLog
      invariant collected == Collected(capitals[..i], r, cache.files, find)
    {
      ghost var before := cache.cache;
      var entry := PriceCapital(capitals[i], r, cache, find);
      assert capitals[..i + 1][..i] == capitals[..i];
      ReadStep(old(cache.cache).Keys, before, cache.cache, cache.files, capitals[..i + 1], find);
      if entry.Some? {
        collected := collected + [entry.value];
      }
    }
    assert capitals[..|capitals|] == capitals;
    results := StableSort(collected, PaymentOrder);
  }

  // ----- properties of the loop -----

  /** The entries of a + b are those of a followed by those of b. */
  lemma {:induction false} CollectedAppend(a: seq<string>, b: seq<string>, r: Request,
                                           files: map<string, ResidualRates.RatesFile>, find: string -> VehicleSearch)
    requires r.months >= 1
    ensures Collected(a + b, r, files, find) == Collected(a, r, files, find) + Collected(b, r, files, find)
    decreases |b|
  {
    if |b| == 0 {
      assert a + b == a;
    } else {
      var b' := b[..|b| - 1];
      assert (a + b)[..|a + b| - 1] == a + b';
      assert (a + b)[|a + b| - 1] == b[|b| - 1];
      CollectedAppend(a, b', r, files, find);
    }
  }

  /**
   * Failure isolation: whatever capital i does, raising included, the entries
   * of the capitals before and after it are exactly what they would be without it.
   */
  lemma FailureIsolation(capitals: seq<string>, i: nat, r: Request, files: map<string, ResidualRates.RatesFile>,
                         find: string -> VehicleSearch)
    requires r.months >= 1 && i < |capitals|
    ensures Collected(capitals, r, files, find)
         == Collected(capitals[..i], r, files, find)
            + (if CapitalOutcome(capitals[i], r, files, find).Some? then [CapitalOutcome(capitals[i], r, files, find).value] else [])
            + Collected(capitals[i + 1..], r, files, find)
  {
    assert capitals == capitals[..i] + [capitals[i]] + capitals[i + 1..];
    CollectedAppend(capitals[..i] + [capitals[i]], capitals[i + 1..], r, files, find);
    CollectedAppend(capitals[..i], [capitals[i]], r, files, find);
  }

  /** Each entry is the outcome of a capital of the list, and each capital's outcome is present. */
  lemma {:induction false} CollectedMembers(capitals: seq<string>, r: Request,
                                            files: map<string, ResidualRates.RatesFile>, find: string -> VehicleSearch,
                                            e: Entry)
    requires r.months >= 1
    ensures e in Collected(capitals, r, files, find)
        <==> exists i :: 0 <= i < |capitals| && CapitalOutcome(capitals[i], r, files, find) == Some(e)
  {
    if |capitals| > 0 {
      var init := capitals[..|capitals| - 1];
      CollectedMembers(init, r, files, find, e);
      if exists i :: 0 <= i < |capitals| && CapitalOutcome(capitals[i], r, files, find) == Some(e) {
        var i :| 0 <= i < |capitals| && CapitalOutcome(capitals[i], r, files, find) == Some(e);
        if i < |capitals| - 1 {
          assert init[i] == capitals[i];
        }
      }
    }
  }

  /** Exactly one entry per capital that is not skipped: the count equals the capitals when none is skipped. */
  lemma {:induction false} NoSkipOneEntryEach(capitals: seq<string>, r: Request,
                                              files: map<string, ResidualRates.RatesFile>, find: string -> VehicleSearch)
    requires r.months >= 1
    requires forall i :: 0 <= i < |capitals| ==> CapitalOutcome(capitals[i], r, files, find).Some?
    ensures |Collected(capitals, r, files, find)| == |capitals|
  {
    if |capitals| > 0 {
      var init := capitals[..|capitals| - 1];
      assert forall i :: 0 <= i < |init| ==> init[i] == capitals[i];
      NoSkipOneEntryEach(init, r, files, find);
    }
  }

  /** A capital gets no entry exactly when its vehicle is found and both grades raise the missing-data ValueError. */
  lemma SkipIffNoResidualData(capitalId: string, r: Request, files: map<string, ResidualRates.RatesFile>,
                              find: string -> VehicleSearch)
    requires r.months >= 1
    ensures CapitalOutcome(capitalId, r, files, find).None?
        <==> find(capitalId).Match?
             && ResidualRates.LookupRate(files, capitalId, find(capitalId).vehicle.id, r.months, r.mileage,
                                         PreferredGrade(capitalId)).NoData?
             && ResidualRates.LookupRate(files, capitalId, find(capitalId).vehicle.id, r.months, r.mileage,
                                         FallbackGrade(capitalId)).NoData?
  {
  }

  /**
   * The grade sequence: a priced entry carries the preferred grade when its
   * data exists, and otherwise the fallback grade, tried only after the
   * preferred one raised the missing-data ValueError.
   */
  lemma GradeSequence(capitalId: string, r: Request, files: map<string, ResidualRates.RatesFile>,
                      find: string -> VehicleSearch)
    requires r.months >= 1
    requires CapitalOutcome(capitalId, r, files, find).Some? && CapitalOutcome(capitalId, r, files, find).value.Priced?
    ensures find(capitalId).Match?
    ensures var e := CapitalOutcome(capitalId, r, files, find).value;
            var preferred := ResidualRates.LookupRate(files, capitalId, find(capitalId).vehicle.id, r.months,
                                                      r.mileage, PreferredGrade(capitalId));
            && (preferred.Found? ==> e.grade == PreferredGrade(capitalId))
            && (!preferred.Found? ==> preferred.NoData? && e.grade == FallbackGrade(capitalId))
    ensures var g := CapitalOutcome(capitalId, r, files, find).value.grade;
            if capitalId == "mg_capital" then g == "snk_premium" || g == "snk_normal"
            else g == "aps_premium" || g == "west_normal"
  {
    var o := CapitalOutcome(capitalId, r, files, find);
    assert find(capitalId).Match?;
    var v := find(capitalId).vehicle;
    var c := ChooseGrade(files, capitalId, v.id, r.months, r.mileage);
    assert c.Chosen?;
    var annual := AnnualRate(capitalId, r, v);
    assert annual.Success?;
    assert o.value == PricedEntry(capitalId, r, v, c.grade, c.rate, annual.value);
  }

  /** Some exception, not a missing residual, is behind every failure entry; a failure is never silent. */
  lemma FailureEntries(capitalId: string, r: Request, files: map<string, ResidualRates.RatesFile>,
                       find: string -> VehicleSearch)
    requires r.months >= 1
    ensures find(capitalId).NoMatch? ==>
      CapitalOutcome(capitalId, r, files, find) == Some(Failed(DisplayName(capitalId), capitalId,
                                                               VehicleNotFound(NotFoundMessage(r))))
    ensures capitalId !in files && find(capitalId).Match? ==>
      CapitalOutcome(capitalId, r, files, find) == Some(Failed(DisplayName(capitalId), capitalId, ResidualFileMissing))
    ensures find(capitalId).Match? && capitalId !in InterestRates.InterestRateTable
            && ChooseGrade(files, capitalId, find(capitalId).vehicle.id, r.months, r.mileage).Chosen? ==>
      CapitalOutcome(capitalId, r, files, find)
        == Some(Failed(DisplayName(capitalId), capitalId, InterestFailed(InterestRates.UnknownCapital(capitalId))))
  {
  }

  /**
   * The sorted results: every priced entry before every failure, priced
   * entries by ascending non-zero payment with 0 after them, a permutation
   * of the collected entries, and entries of equal key in collection order.
   */
  lemma ResultsOrder(capitals: seq<string>, r: Request, files: map<string, ResidualRates.RatesFile>,
                     find: string -> VehicleSearch, e: Entry)
    requires r.months >= 1
    ensures var s := ComparisonResults(capitals, r, files, find);
            && multiset(s) == multiset(Collected(capitals, r, files, find))
            && (forall i, j :: 0 <= i < j < |s| && s[i].Failed? ==> s[j].Failed?)
            && (forall i, j :: 0 <= i < j < |s| && s[j].Priced? && s[j].monthlyPayment != 0 ==>
                  s[i].Priced? && s[i].monthlyPayment != 0 && s[i].monthlyPayment <= s[j].monthlyPayment)
            && EquivalentTo(s, e, PaymentOrder) == EquivalentTo(Collected(capitals, r, files, find), e, PaymentOrder)
  {
    SortedByPayment(Collected(capitals, r, files, find), e);
  }

  lemma SortedByPayment(c: seq<Entry>, e: Entry)
    ensures var s := StableSort(c, PaymentOrder);
            && multiset(s) == multiset(c)
            && (forall i, j :: 0 <= i < j < |s| && s[i].Failed? ==> s[j].Failed?)
            && (forall i, j :: 0 <= i < j < |s| && s[j].Priced? && s[j].monthlyPayment != 0 ==>
                  s[i].Priced? && s[i].monthlyPayment != 0 && s[i].monthlyPayment <= s[j].monthlyPayment)
            && EquivalentTo(s, e, PaymentOrder) == EquivalentTo(c, e, PaymentOrder)
  {
    PaymentOrderIsPreorder();
    StableSortCorrect(c, PaymentOrder, e);
    PaymentSorted(StableSort(c, PaymentOrder));
  }

  /** What being sorted by the key means: failures last, then non-zero payments ascending ahead of zero ones. */
  lemma PaymentSorted(s: seq<Entry>)
    requires SortedBy(s, PaymentOrder)
    ensures forall i, j :: 0 <= i < j < |s| && s[i].Failed? ==> s[j].Failed?
    ensures forall i, j :: 0 <= i < j < |s| && s[j].Priced? && s[j].monthlyPayment != 0 ==>
              s[i].Priced? && s[i].monthlyPayment != 0 && s[i].monthlyPayment <= s[j].monthlyPayment
  {
    forall i, j | 0 <= i < j < |s|
      ensures s[i].Failed? ==> s[j].Failed?
    {
      assert PaymentOrder(s[i], s[j]);
    }
    forall i, j | 0 <= i < j < |s| && s[j].Priced? && s[j].monthlyPayment != 0
      ensures s[i].Priced? && s[i].monthlyPayment != 0 && s[i].monthlyPayment <= s[j].monthlyPayment
    {
      assert PaymentOrder(s[i], s[j]);
    }
  }

  // ----- the pricing branches -----

  /**
   * At MG the down payment becomes a rate of the acquisition total, which
   * the calculator turns back into the same down payment, truncated to won.
   */
  lemma MgDownPaymentRoundTrip(capitalId: string, r: Request, v: CapitalVehicle, grade: string, stored: Json,
                               annualRate: real)
    requires r.months >= 1 && annualRate >= 0.0
    requires MgEntry(capitalId, r, v, grade, stored, annualRate).Priced?
    ensures var q := MgEntry(capitalId, r, v, grade, stored, annualRate).details.quote;
            && q.downPayment == (if DownPayment(r) > 0.0 then Numeric.Trunc(DownPayment(r)) else 0)
            && q.monthlyPayment % 100 == 0
            && q.acquisitionCost == r.price + MgCalculator.AcquisitionTax(r.price, v.engineCc == 0, false, false)
  {
    MgDownPaymentFromRate(r.price, NumericRate(stored).value, r.months, r.mileage, annualRate, DownPayment(r),
                          v.engineCc == 0);
  }

  lemma MgDownPaymentFromRate(price: int, rate: real, months: nat, mileage: int, annualRate: real, down: real,
                              isEv: bool)
    requires months >= 1 && annualRate >= 0.0
    requires MgDownRate(down, price + MgCalculator.AcquisitionTax(price, isEv, false, false)).Some?
    ensures MgCalculator.Calculate(price, rate, months, mileage, annualRate,
                                   MgDownRate(down, price + MgCalculator.AcquisitionTax(price, isEv, false, false)).value,
                                   "서울", isEv, false, false).downPayment
         == (if down > 0.0 then Numeric.Trunc(down) else 0)
  {
    var total := price + MgCalculator.AcquisitionTax(price, isEv, false, false);
    assert MgCalculator.Portion(total, MgDownRate(down, total).value) == (if down > 0.0 then down else 0.0);
  }

  /**
   * At Meritz and NH the calculator finances the given acquisition cost less
   * the down payment and takes the residual from the price.
   */
  lemma StandardFinancing(r: Request, v: CapitalVehicle, rate: real, annualRate: real)
    requires r.months >= 1 && annualRate >= 0.0
    requires StandardAcquisitionCost(r.price) != 0.0
    ensures Calculator.FinancingBasis(StandardInput(r, v, rate, annualRate)).financed
         == StandardAcquisitionCost(r.price) - DownPayment(r)
    ensures Calculator.FinancingBasis(StandardInput(r, v, rate, annualRate)).residualValue == r.price as real * rate
  {
  }

  /** The Meritz / NH entry quotes whole thousands, and its detail total is the down payment plus every payment. */
  lemma StandardPayment(capitalId: string, r: Request, v: CapitalVehicle, grade: string, stored: Json,
                        annualRate: real)
    requires r.months >= 1 && annualRate >= 0.0
    requires StandardEntry(capitalId, r, v, grade, stored, annualRate).Priced?
    ensures StandardEntry(capitalId, r, v, grade, stored, annualRate).monthlyPayment % 1000 == 0
    ensures StandardEntry(capitalId, r, v, grade, stored, annualRate).details.totalPayment
         == DownPayment(r) + (StandardEntry(capitalId, r, v, grade, stored, annualRate).monthlyPayment * r.months) as real
  {
    var q := Calculator.CalculateOperatingLease(StandardInput(r, v, NumericRate(stored).value, annualRate));
    assert StandardEntry(capitalId, r, v, grade, stored, annualRate).details.lease == q;
  }

  // ----- Finding: a null premium grade at MG -----

  /**
   * MG writes a null snk_premium for a vehicle without the premium option.
   * The preferred lookup then raises a TypeError, which the ValueError
   * handler lets through, so the capital gets a failure entry although its
   * snk_normal rate is stored.
   */
  lemma NullPremiumFailsAtMg(r: Request, files: map<string, ResidualRates.RatesFile>, find: string -> VehicleSearch,
                             options: ResidualRates.RatesFile, v: Json)
    requires r.months >= 1
    requires find("mg_capital").Match? && "mg_capital" in files
    requires Dicts.Get(files["mg_capital"], find("mg_capital").vehicle.id) == Some(JObj(options))
    requires Dicts.Get(options, "snk_premium") == Some(JNull)
    requires Dicts.Get(options, "snk_normal").Some?
    requires ResidualRates.StoredAt(Dicts.Get(options, "snk_normal").value, r.months, r.mileage, v)
    ensures CapitalOutcome("mg_capital", r, files, find)
         == Some(Failed(DisplayName("mg_capital"), "mg_capital", ResidualTypeError))
  {
    ResidualRates.NullGradeRaises(files["mg_capital"], "mg_capital", find("mg_capital").vehicle.id, r.months,
                                  r.mileage, "snk_premium", options);
  }

  /** The grade sequence as its comment describes it: any failure of the preferred grade moves to the fallback. */
  function ChooseGradeCorrected(files: map<string, ResidualRates.RatesFile>, capitalId: string, vehicleId: string,
                                months: int, mileage: int): (c: GradeChoice)
    ensures c.Chosen? ==> c.grade == PreferredGrade(capitalId) || c.grade == FallbackGrade(capitalId)
  {
    var first := ResidualRates.LookupRate(files, capitalId, vehicleId, months, mileage, PreferredGrade(capitalId));
    if first.Found? then Chosen(PreferredGrade(capitalId), first.rate)
    else if first.NoData? || first.Raised? then
      var second := ResidualRates.LookupRate(files, capitalId, vehicleId, months, mileage, FallbackGrade(capitalId));
      if second.Found? then Chosen(FallbackGrade(capitalId), second.rate)
      else if second.NoData? then Skip
      else GradeFailed(LookupFailure(second))
    else GradeFailed(LookupFailure(first))
  }

  /** With the corrected sequence, an MG vehicle with a null premium grade is priced at its stored snk_normal rate. */
  lemma NullPremiumUsesNormal(files: map<string, ResidualRates.RatesFile>, vehicleId: string, months: int, mileage: int,
                              options: ResidualRates.RatesFile, v: Json)
    requires "mg_capital" in files
    requires Dicts.Get(files["mg_capital"], vehicleId) == Some(JObj(options))
    requires Dicts.Get(options, "snk_premium") == Some(JNull)
    requires Dicts.Get(options, "snk_normal").Some?
    requires ResidualRates.StoredAt(Dicts.Get(options, "snk_normal").value, months, mileage, v)
    ensures ChooseGradeCorrected(files, "mg_capital", vehicleId, months, mileage) == Chosen("snk_normal", v)
  {
    ResidualRates.NullGradeRaises(files["mg_capital"], "mg_capital", vehicleId, months, mileage, "snk_premium", options);
    ResidualRates.ExactHit(files["mg_capital"], "mg_capital", vehicleId, months, mileage, "snk_normal", options, v);
  }

  /** The correction changes nothing where the preferred lookup does not raise a TypeError. */
  lemma CorrectionOnlyForTypeErrors(files: map<string, ResidualRates.RatesFile>, capitalId: string, vehicleId: string,
                                    months: int, mileage: int)
    requires !ResidualRates.LookupRate(files, capitalId, vehicleId, months, mileage, PreferredGrade(capitalId)).Raised?
    ensures ChooseGradeCorrected(files, capitalId, vehicleId, months, mileage)
         == ChooseGrade(files, capitalId, vehicleId, months, mileage)
  {
  }

  // ----- the MG result in the straight-line layout -----

  /** The result dictionary of the straight-line calculator, as the single-capital screen fills it from an MG quote. */
  datatype CommonResult = CommonResult(
    monthlyTotal: int,
    monthlyDepreciation: int,
    monthlyFinance: int,
    monthlyTax: int,
    monthlyRegistration: int,
    monthlyCarTax: int,
    totalPayment: int,
    totalInterest: int,
    residualValue: int,
    effectiveVehicleCost: int)

  /**
   * The conversion: depreciation is the depreciable amount floor-divided by
   * the term, finance is what the payment holds beyond it, and the interest
   * is what the contract pays beyond the financed amount net of the residual.
   */
  function CommonFromMg(q: MgCalculator.MgQuote, months: int): (c: CommonResult)
    requires months >= 1
    ensures c.monthlyDepreciation * months <= q.financedAmount - q.residualValue
            < (c.monthlyDepreciation + 1) * months
    ensures c.monthlyDepreciation + c.monthlyFinance == c.monthlyTotal == q.monthlyPayment
    ensures c.monthlyTax == 0 && c.monthlyRegistration == 0 && c.monthlyCarTax == q.monthlyCarTax
    ensures c.totalPayment == q.totalPayment && c.residualValue == q.residualValue
    ensures c.effectiveVehicleCost == q.netVehicleCost
    ensures c.totalInterest + q.financedAmount - q.residualValue == q.totalPayment - q.downPayment
  {
    var depreciation := (q.financedAmount - q.residualValue) / months;
    CommonResult(q.monthlyPayment, depreciation, q.monthlyPayment - depreciation, 0, 0, q.monthlyCarTax,
                 q.totalPayment, q.totalPayment - q.downPayment - q.financedAmount + q.residualValue,
                 q.residualValue, q.netVehicleCost)
  }

  /**
   * For a quote of the MG calculator the converted interest is the payments
   * beyond the depreciable amount, at most the finance line over the term and
   * less than one won a month below it.
   */
  lemma ConvertedInterest(price: int, residualRate: real, months: nat, annualMileage: int, annualRate: real,
                          downPaymentRate: real, isEv: bool)
    requires months >= 1 && annualRate >= 0.0
    ensures var q := MgCalculator.Calculate(price, residualRate, months, annualMileage, annualRate, downPaymentRate,
                                            "서울", isEv, false, false);
            var c := CommonFromMg(q, months);
            && c.totalInterest == q.monthlyPayment * months - (q.financedAmount - q.residualValue)
            && c.monthlyFinance * months - months < c.totalInterest <= c.monthlyFinance * months
  {
    var q := MgCalculator.Calculate(price, residualRate, months, annualMileage, annualRate, downPaymentRate,
                                    "서울", isEv, false, false);
    ConvertedInterestOf(q, months);
  }

  lemma ConvertedInterestOf(q: MgCalculator.MgQuote, months: nat)
    requires months >= 1
    requires q.totalPayment == q.downPayment + q.monthlyPayment * months
    ensures var c := CommonFromMg(q, months);
            && c.totalInterest == q.monthlyPayment * months - (q.financedAmount - q.residualValue)
            && c.monthlyFinance * months - months < c.totalInterest <= c.monthlyFinance * months
  {
    var c := CommonFromMg(q, months);
    assert q.monthlyPayment * months == (c.monthlyDepreciation + c.monthlyFinance) * months;
  }
}
