/**
 * The residual-rate resolver over the per-capital JSON files, laid out as
 * vehicle id -> grade option -> str(months) -> str(mileage) -> rate; the
 * first-option fallback on a KeyError; and the read-through cache that
 * reads each capital's file at most once.
 */
module ResidualRates {
  import opened Wrappers
  import opened Dicts
  import opened JsonData
  import Text
  import Sorting

  /** The top-level object of one residual_rates/<capital>.json file. */
  type RatesFile = Dict<string, Json>

  /** The outcome of get_residual_rate. */
  datatype RateLookup =
    | Found(rate: Json)
      /** The ValueError raised when both the exact path and the fallback fail. */
    | NoData(message: string)
      /** A TypeError in the exact path (a null or non-object entry), which `except KeyError` lets through. */
    | Raised
      /** The FileNotFoundError of loading a capital that has no file. */
    | FileMissing

  function NoDataMessage(capitalId: string, vehicleId: string, grade: string, months: int, mileage: int): string {
    "잔존율 데이터 없음: " + capitalId + "/" + vehicleId + "/" + grade + "/"
      + Text.IntToDecimal(months) + "/" + Text.IntToDecimal(mileage)
  }

  /** data[vehicle_id][grade_option][months_key][mileage_key]. */
  function ExactPath(data: Json, vehicleId: string, grade: string, monthsKey: string, mileageKey: string): Step {
    Then(Then(Then(Index(data, vehicleId), grade), monthsKey), mileageKey)
  }

  /** The fallback through the vehicle's first stored option; None when any step of it raises. */
  function FirstOptionFallback(data: Json, vehicleId: string, monthsKey: string, mileageKey: string): Option<Json> {
    match Index(data, vehicleId)
    case Value(JObj(options)) =>
      if |options| == 0 then None
      else
        (match Then(Then(Index(JObj(options), options[0].0), monthsKey), mileageKey)
         case Value(v) => Some(v)
         case _ => None)
    case _ => None
  }

  /** get_residual_rate over loaded data. */
  function ResidualRate(data: RatesFile, capitalId: string, vehicleId: string, months: int, mileage: int,
                        grade: string): (r: RateLookup)
    ensures r.NoData? ==> r.message == NoDataMessage(capitalId, vehicleId, grade, months, mileage)
    ensures !r.FileMissing?
  {
    var monthsKey := Text.IntToDecimal(months);
    var mileageKey := Text.IntToDecimal(mileage);
    match ExactPath(JObj(data), vehicleId, grade, monthsKey, mileageKey)
    case Value(v) => Found(v)
    case TypeError => Raised
    case KeyError =>
      (match FirstOptionFallback(JObj(data), vehicleId, monthsKey, mileageKey)
       case Some(v) => Found(v)
       case None => NoData(NoDataMessage(capitalId, vehicleId, grade, months, mileage)))
  }

  /** get_residual_rate including the load: a capital without a file raises FileNotFoundError. */
  function LookupRate(files: map<string, RatesFile>, capitalId: string, vehicleId: string, months: int,
                      mileage: int, grade: string): (r: RateLookup)
    ensures r.FileMissing? <==> capitalId !in files
  {
    if capitalId !in files then FileMissing
    else ResidualRate(files[capitalId], capitalId, vehicleId, months, mileage, grade)
  }

  /** The rate stored under term `months` and mileage `mileage` of one option's table. */
  predicate StoredAt(option: Json, months: int, mileage: int, v: Json) {
    && option.JObj?
    && (match Get(option.members, Text.IntToDecimal(months))
        case Some(terms) => terms.JObj? && Get(terms.members, Text.IntToDecimal(mileage)) == Some(v)
        case None => false)
  }

  // ----- properties of the lookup -----

  /** An exact hit returns the stored value. */
  lemma ExactHit(data: RatesFile, capitalId: string, vehicleId: string, months: int, mileage: int, grade: string,
                 options: RatesFile, v: Json)
    requires Get(data, vehicleId) == Some(JObj(options))
    requires Get(options, grade).Some? && StoredAt(Get(options, grade).value, months, mileage, v)
    ensures ResidualRate(data, capitalId, vehicleId, months, mileage, grade) == Found(v)
  {
  }

  /**
   * Any KeyError on the exact path falls back to the first stored option with the same
   * term and mileage, even when the requested grade exists but lacks the term or mileage.
   */
  lemma KeyErrorFallsBack(data: RatesFile, capitalId: string, vehicleId: string, months: int, mileage: int,
                          grade: string, options: RatesFile, v: Json)
    requires Get(data, vehicleId) == Some(JObj(options))
    requires Get(options, grade).None?
          || (Get(options, grade).value.JObj? && !StoredAtAny(Get(options, grade).value, months, mileage))
    requires |options| > 0 && Get(options, options[0].0).Some?
    requires StoredAt(Get(options, options[0].0).value, months, mileage, v)
    ensures ResidualRate(data, capitalId, vehicleId, months, mileage, grade) == Found(v)
  {
    var mk := Text.IntToDecimal(months);
    var mik := Text.IntToDecimal(mileage);
    var path := ExactPath(JObj(data), vehicleId, grade, mk, mik);
    if Get(options, grade).Some? {
      var option := Get(options, grade).value;
      match Get(option.members, mk)
      case None =>
      case Some(terms) =>
        assert terms.JObj? && Get(terms.members, mik).None?;
    }
  }

  /** Some rate is stored at that term and mileage, and every step to it is an object. */
  predicate StoredAtAny(option: Json, months: int, mileage: int) {
    && option.JObj?
    && (match Get(option.members, Text.IntToDecimal(months))
        case Some(terms) => !terms.JObj? || Get(terms.members, Text.IntToDecimal(mileage)).Some?
        case None => false)
  }

  /**
   * A null grade entry (as MG writes for a vehicle without the premium option) raises a
   * TypeError on the exact path; the fallback is never tried, whatever the other options hold.
   */
  lemma NullGradeRaises(data: RatesFile, capitalId: string, vehicleId: string, months: int, mileage: int,
                        grade: string, options: RatesFile)
    requires Get(data, vehicleId) == Some(JObj(options))
    requires Get(options, grade) == Some(JNull)
    ensures ResidualRate(data, capitalId, vehicleId, months, mileage, grade) == Raised
  {
  }

  /** A vehicle absent from the file fails with the ValueError naming all five coordinates. */
  lemma UnknownVehicleNoData(data: RatesFile, capitalId: string, vehicleId: string, months: int, mileage: int,
                             grade: string)
    requires !HasKey(data, vehicleId)
    ensures ResidualRate(data, capitalId, vehicleId, months, mileage, grade)
         == NoData(NoDataMessage(capitalId, vehicleId, grade, months, mileage))
  {
  }

  /** A vehicle with no options at all, or whose first option lacks the term, also fails with that ValueError. */
  lemma FallbackMissNoData(data: RatesFile, capitalId: string, vehicleId: string, months: int, mileage: int,
                           grade: string, options: RatesFile)
    requires Get(data, vehicleId) == Some(JObj(options))
    requires !HasKey(options, grade)
    requires |options| == 0 || (Get(options, options[0].0).Some? && Get(options, options[0].0).value.JObj?
                                && !HasKey(Get(options, options[0].0).value.members, Text.IntToDecimal(months)))
    ensures ResidualRate(data, capitalId, vehicleId, months, mileage, grade)
         == NoData(NoDataMessage(capitalId, vehicleId, grade, months, mileage))
  {
  }

  // ----- the legacy term-keyed converter behind get_available_periods / get_available_mileages -----

  /** Why get_vehicle_residual_table raised. */
  datatype TableError =
      /** The ValueError for a vehicle that is not in the file. */
    | NoVehicle(message: string)
      /** The ValueError of int() on a key that is not decimal text. */
    | NotANumber(key: string)
      /** The AttributeError of calling .items() on something that is not an object. */
    | NotAnObject

  /** {int(mileage_str): rate for mileage_str, rate in mileage_dict.items()}. */
  function ConvertMileages(entry: Json): (r: Result<Dict<int, Json>, TableError>)
    ensures r.Success? ==> UniqueKeys(r.value)
  {
    if !entry.JObj? then Failure(NotAnObject) else ConvertMileageEntries(entry.members)
  }

  function ConvertMileageEntries(members: Dict<string, Json>): (r: Result<Dict<int, Json>, TableError>)
    ensures r.Success? ==> UniqueKeys(r.value)
  {
    if |members| == 0 then Success([])
    else
      match ConvertMileageEntries(members[..|members| - 1])
      case Failure(e) => Failure(e)
      case Success(inner) =>
        var (k, rate) := members[|members| - 1];
        match Text.ParseInt(k)
        case None => Failure(NotANumber(k))
        case Some(m) =>
          PutUnique(inner, m, rate);
          Success(Put(inner, m, rate))
  }

  /** The table that the loop of get_vehicle_residual_table has built after the given entries. */
  function ConvertTerms(entries: Dict<string, Json>): (r: Result<Dict<int, Dict<int, Json>>, TableError>)
    ensures r.Success? ==> UniqueKeys(r.value)
  {
    if |entries| == 0 then Success([])
    else
      match ConvertTerms(entries[..|entries| - 1])
      case Failure(e) => Failure(e)
      case Success(table) => ConvertStep(table, entries[|entries| - 1])
  }

  /** One iteration: result[int(months_str)] = the converted mileage dict. */
  function ConvertStep(table: Dict<int, Dict<int, Json>>, entry: (string, Json)): (r: Result<Dict<int, Dict<int, Json>>, TableError>)
    requires UniqueKeys(table)
    ensures r.Success? ==> UniqueKeys(r.value)
  {
    match Text.ParseInt(entry.0)
    case None => Failure(NotANumber(entry.0))
    case Some(m) =>
      match ConvertMileages(entry.1)
      case Failure(e) => Failure(e)
      case Success(inner) =>
        PutUnique(table, m, inner);
        Success(Put(table, m, inner))
  }

  /** Keys in ascending order, as sorted(list(d.keys())) gives them. */
  function SortedKeys<V>(d: Dict<int, V>): (r: seq<int>)
    ensures Sorting.StrictlySorted(r, Sorting.IntLess)
    ensures forall k :: k in r <==> HasKey(d, k)
  {
    Sorting.IntLessIsStrictTotal();
    Sorting.SortedUniqueCorrect(Keys(d), Sorting.IntLess);
    Sorting.SortedUnique(Keys(d), Sorting.IntLess)
  }

  /** Grade-keyed data cannot be converted: the first grade key already makes int() raise. */
  lemma GradeKeyedDataNotConvertible(entries: Dict<string, Json>, k: nat)
    requires |entries| > 0 && k < |entries[0].0|
    requires 'a' <= entries[0].0[k] <= 'z'
    ensures ConvertTerms(entries) == Failure(NotANumber(entries[0].0))
  {
    Text.ParseRejectsLetter(entries[0].0, k);
    FirstEntryFails(entries);
  }

  lemma {:induction false} FirstEntryFails(entries: Dict<string, Json>)
    requires |entries| > 0 && Text.ParseInt(entries[0].0).None?
    ensures ConvertTerms(entries) == Failure(NotANumber(entries[0].0))
  {
    if |entries| > 1 {
      var init := entries[..|entries| - 1];
      assert init[0] == entries[0];
      FirstEntryFails(init);
    }
  }

  /** The corrected lookup of the periods: the terms stored under one grade option, in ascending order. */
  function PeriodsOfGrade(data: RatesFile, vehicleId: string, grade: string): (r: Result<seq<int>, TableError>)
    ensures r.Success? ==> Sorting.StrictlySorted(r.value, Sorting.IntLess)
  {
    match Get(data, vehicleId)
    case None => Failure(NoVehicle("차량 " + vehicleId + "의 잔존율 데이터가 없습니다"))
    case Some(options) =>
      if !options.JObj? then Failure(NotAnObject)
      else
        match Get(options.members, grade)
        case None => Success([])
        case Some(terms) =>
          if !terms.JObj? then Failure(NotAnObject)
          else
            match ConvertMileageEntries(terms.members)
            case Failure(e) => Failure(e)
            case Success(t) => Success(SortedKeys(t))
  }

  /** The corrected lookup returns exactly the terms whose keys int() reads, and every key written as str(m). */
  lemma PeriodsOfGradeListsTerms(data: RatesFile, vehicleId: string, grade: string, options: RatesFile,
                                 terms: Dict<string, Json>, m: int)
    requires Get(data, vehicleId) == Some(JObj(options))
    requires Get(options, grade) == Some(JObj(terms))
    requires ConvertMileageEntries(terms).Success?
    ensures PeriodsOfGrade(data, vehicleId, grade).Success?
    ensures m in PeriodsOfGrade(data, vehicleId, grade).value <==> KeyReadsAs(terms, m)
    ensures HasKey(terms, Text.IntToDecimal(m)) ==> m in PeriodsOfGrade(data, vehicleId, grade).value
  {
    ConvertedKeys(terms, m);
    if HasKey(terms, Text.IntToDecimal(m)) {
      var i :| 0 <= i < |Keys(terms)| && Keys(terms)[i] == Text.IntToDecimal(m);
      Text.IntDecimalRoundTrip(m);
      ParsedKeyAt(terms, i);
    }
  }

  /** int() of every key, in order; None where it raises. */
  function ParsedKeys(members: Dict<string, Json>): (r: seq<Option<int>>)
    ensures |r| == |members|
  {
    if |members| == 0 then []
    else ParsedKeys(members[..|members| - 1]) + [Text.ParseInt(members[|members| - 1].0)]
  }

  /** Some key of the members reads as m under int(). */
  predicate KeyReadsAs(members: Dict<string, Json>, m: int) {
    Some(m) in ParsedKeys(members)
  }

  lemma {:induction false} ParsedKeyAt(members: Dict<string, Json>, i: nat)
    requires i < |members|
    ensures ParsedKeys(members)[i] == Text.ParseInt(members[i].0)
  {
    if i < |members| - 1 {
      ParsedKeyAt(members[..|members| - 1], i);
    }
  }

  /** After conversion, m is a key exactly when some original key reads as m under int(). */
  lemma {:induction false} ConvertedKeys(members: Dict<string, Json>, m: int)
    requires ConvertMileageEntries(members).Success?
    ensures HasKey(ConvertMileageEntries(members).value, m) <==> KeyReadsAs(members, m)
  {
    if |members| > 0 {
      var init := members[..|members| - 1];
      var last := members[|members| - 1];
      ConvertedKeys(init, m);
      PutKeys(ConvertMileageEntries(init).value, Text.ParseInt(last.0).value, last.1);
    }
  }

  // ----- the cache -----

  /** The module-level _RESIDUAL_CACHE together with the files it reads from. */
  class ResidualCache {
    /** The residual_rates/<capital>.json files present on disk, already parsed. */
    const files: map<string, RatesFile>
    var cache: map<string, RatesFile>
    /** Every file read so far, in order. */
    ghost var loadLog: seq<string>

    ghost predicate Valid()
      reads this
    {
      && (forall id :: id in cache ==> id in files && cache[id] == files[id])
      && (forall id :: id in cache <==> id in loadLog)
      && (forall i, j :: 0 <= i < j < |loadLog| ==> loadLog[i] != loadLog[j])
    }

    constructor(files: map<string, RatesFile>)
      ensures Valid()
      ensures this.files == files && cache == map[] && loadLog == []
    {
      this.files := files;
      cache := map[];
      loadLog := [];
    }

    /**
     * The cache and the read log after reading capitalId through the cache from
     * the state (cache0, log0): a cached capital or a missing file changes
     * nothing; otherwise the file is read once and cached.
     */
    ghost predicate ReadThrough(cache0: map<string, RatesFile>, log0: seq<string>, capitalId: string)
      reads this
    {
      if capitalId in cache0 || capitalId !in files then cache == cache0 && loadLog == log0
      else cache == cache0[capitalId := files[capitalId]] && loadLog == log0 + [capitalId]
    }

    /** _load_residual_rates: a cached table is returned as is; otherwise the file is read once, or None when absent. */
    method Load(capitalId: string) returns (r: Option<RatesFile>)
      requires Valid()
      modifies this
      ensures Valid()
      ensures r.Some? <==> capitalId in files
      ensures r.Some? ==> r.value == files[capitalId]
      ensures capitalId in old(cache) || capitalId !in files ==> cache == old(cache) && loadLog == old(loadLog)
      ensures capitalId !in old(cache) && capitalId in files ==>
        cache == old(cache)[capitalId := files[capitalId]] && loadLog == old(loadLog) + [capitalId]
    {
      if capitalId !in cache {
        if capitalId !in files {
          return None;
        }
        cache := cache[capitalId := files[capitalId]];
        loadLog := loadLog + [capitalId];
      }
      return Some(cache[capitalId]);
    }

    /** get_residual_rate: the answer depends on the files alone, so repeated calls agree. */
    method GetResidualRate(capitalId: string, vehicleId: string, months: int, mileage: int, grade: string)
      returns (r: RateLookup)
      requires Valid()
      modifies this
      ensures Valid()
      ensures ReadThrough(old(cache), old(loadLog), capitalId)
      ensures r == LookupRate(files, capitalId, vehicleId, months, mileage, grade)
    {
      var data := Load(capitalId);
      if data.None? {
        return FileMissing;
      }
      r := ResidualRate(data.value, capitalId, vehicleId, months, mileage, grade);
    }

    /** validate_vehicle_exists: False, not an exception, when the capital has no file. */
    method ValidateVehicleExists(capitalId: string, vehicleId: string) returns (b: bool)
      requires Valid()
      modifies this
      ensures Valid()
      ensures ReadThrough(old(cache), old(loadLog), capitalId)
      ensures b <==> capitalId in files && HasKey(files[capitalId], vehicleId)
    {
      var data := Load(capitalId);
      if data.None? {
        return false;
      }
      return HasKey(data.value, vehicleId);
    }

    /** get_vehicle_residual_table: converts every top-level key of the vehicle's entry with int(). */
    method GetVehicleResidualTable(capitalId: string, vehicleId: string)
      returns (r: Option<Result<Dict<int, Dict<int, Json>>, TableError>>)
      requires Valid()
      modifies this
      ensures Valid()
      ensures ReadThrough(old(cache), old(loadLog), capitalId)
      ensures r.None? <==> capitalId !in files
      ensures r.Some? ==> r.value == VehicleTable(files[capitalId], vehicleId)
    {
      var data := Load(capitalId);
      if data.None? {
        return None;
      }
      var entry := Get(data.value, vehicleId);
      if entry.None? {
        return Some(Failure(NoVehicle("차량 " + vehicleId + "의 잔존율 데이터가 없습니다")));
      }
      if !entry.value.JObj? {
        return Some(Failure(NotAnObject));
      }
      var table := ConvertEntries(entry.value.members);
      return Some(table);
    }

    /** get_available_periods: the converted table's terms in ascending order. */
    method GetAvailablePeriods(capitalId: string, vehicleId: string)
      returns (r: Option<Result<seq<int>, TableError>>)
      requires Valid()
      modifies this
      ensures Valid()
      ensures ReadThrough(old(cache), old(loadLog), capitalId)
      ensures r.None? <==> capitalId !in files
      ensures r.Some? ==> r.value == AvailablePeriods(files[capitalId], vehicleId)
    {
      var table := GetVehicleResidualTable(capitalId, vehicleId);
      if table.None? {
        return None;
      }
      if table.value.Failure? {
        return Some(Failure(table.value.error));
      }
      return Some(Success(SortedKeys(table.value.value)));
    }

    /** get_available_mileages: [] for a term the table lacks, else its mileages in ascending order. */
    method GetAvailableMileages(capitalId: string, vehicleId: string, months: int)
      returns (r: Option<Result<seq<int>, TableError>>)
      requires Valid()
      modifies this
      ensures Valid()
      ensures ReadThrough(old(cache), old(loadLog), capitalId)
      ensures r.None? <==> capitalId !in files
      ensures r.Some? ==> r.value == AvailableMileages(files[capitalId], vehicleId, months)
    {
      var table := GetVehicleResidualTable(capitalId, vehicleId);
      if table.None? {
        return None;
      }
      if table.value.Failure? {
        return Some(Failure(table.value.error));
      }
      var inner := Get(table.value.value, months);
      if inner.None? {
        return Some(Success([]));
      }
      return Some(Success(SortedKeys(inner.value)));
    }

    /** get_all_vehicle_ids: the file's vehicle ids in file order; None (FileNotFoundError) without a file. */
    method GetAllVehicleIds(capitalId: string) returns (r: Option<seq<string>>)
      requires Valid()
      modifies this
      ensures Valid()
      ensures ReadThrough(old(cache), old(loadLog), capitalId)
      ensures r.None? <==> capitalId !in files
      ensures r.Some? ==> |r.value| == |files[capitalId]|
      ensures r.Some? ==> forall v :: v in r.value <==> HasKey(files[capitalId], v)
      ensures r.Some? ==> r.value == Keys(files[capitalId])
    {
      var data := Load(capitalId);
      if data.None? {
        return None;
      }
      return Some(Keys(data.value));
    }

    /**
     * get_available_capitals: one id per file present, in the directory's
     * order, which the model leaves open; no file (or no directory) gives [].
     */
    method GetAvailableCapitals() returns (capitals: seq<string>)
      ensures forall c :: c in capitals <==> c in files
      ensures forall i, j :: 0 <= i < j < |capitals| ==> capitals[i] != capitals[j]
    {
      capitals := [];
      var rest := files.Keys;
      while rest != {}
        invariant rest <= files.Keys
        invariant forall c :: c in capitals <==> c in files && c !in rest
        invariant forall i, j :: 0 <= i < j < |capitals| ==> capitals[i] != capitals[j]
        decreases rest
      {
        var c :| c in rest;
        capitals := capitals + [c];
        rest := rest - {c};
      }
    }
  }

  /** The loop of get_vehicle_residual_table over the vehicle's entries, which stops at the first failing key. */
  method ConvertEntries(entries: Dict<string, Json>) returns (r: Result<Dict<int, Dict<int, Json>>, TableError>)
    ensures r == ConvertTerms(entries)
  {
    var table: Dict<int, Dict<int, Json>> := [];
    var i := 0;
    while i < |entries|
      invariant 0 <= i <= |entries|
      invariant ConvertTerms(entries[..i]) == Success(table)
    {
      assert entries[..i + 1][..i] == entries[..i];
      var step := ConvertStep(table, entries[i]);
      if step.Failure? {
        FailureStays(entries, i + 1);
        return Failure(step.error);
      }
      table := step.value;
      i := i + 1;
    }
    assert entries[..i] == entries;
    return Success(table);
  }

  lemma {:induction false} FailureStays(entries: Dict<string, Json>, n: nat)
    requires 0 < n <= |entries| && ConvertTerms(entries[..n]).Failure?
    ensures ConvertTerms(entries).Failure? && ConvertTerms(entries).error == ConvertTerms(entries[..n]).error
    decreases |entries| - n
  {
    if n == |entries| {
      assert entries[..n] == entries;
    } else {
      assert entries[..n + 1][..n] == entries[..n];
      FailureStays(entries, n + 1);
    }
  }

  /** The table get_vehicle_residual_table returns or the exception it raises. */
  function VehicleTable(data: RatesFile, vehicleId: string): (r: Result<Dict<int, Dict<int, Json>>, TableError>)
    ensures r.Success? ==> UniqueKeys(r.value)
  {
    match Get(data, vehicleId)
    case None => Failure(NoVehicle("차량 " + vehicleId + "의 잔존율 데이터가 없습니다"))
    case Some(entry) => if !entry.JObj? then Failure(NotAnObject) else ConvertTerms(entry.members)
  }

  function AvailablePeriods(data: RatesFile, vehicleId: string): (r: Result<seq<int>, TableError>)
    ensures r.Success? ==> Sorting.StrictlySorted(r.value, Sorting.IntLess)
    ensures r.Failure? <==> VehicleTable(data, vehicleId).Failure?
    ensures r.Success? ==> forall m :: m in r.value <==> HasKey(VehicleTable(data, vehicleId).value, m)
  {
    match VehicleTable(data, vehicleId)
    case Failure(e) => Failure(e)
    case Success(table) => Success(SortedKeys(table))
  }

  function AvailableMileages(data: RatesFile, vehicleId: string, months: int): (r: Result<seq<int>, TableError>)
    ensures r.Success? ==> Sorting.StrictlySorted(r.value, Sorting.IntLess)
    ensures r.Failure? <==> VehicleTable(data, vehicleId).Failure?
    ensures r.Success? && !HasKey(VehicleTable(data, vehicleId).value, months) ==> r.value == []
    ensures r.Success? && HasKey(VehicleTable(data, vehicleId).value, months) ==>
      forall m :: m in r.value <==> HasKey(Get(VehicleTable(data, vehicleId).value, months).value, m)
  {
    match VehicleTable(data, vehicleId)
    case Failure(e) => Failure(e)
    case Success(table) =>
      match Get(table, months)
      case None => Success([])
      case Some(inner) => Success(SortedKeys(inner))
  }

  /** On grade-keyed data, as both extractors write it, get_available_periods always raises. */
  lemma AvailablePeriodsFailOnGradeKeys(data: RatesFile, vehicleId: string, options: RatesFile, k: nat)
    requires Get(data, vehicleId) == Some(JObj(options))
    requires |options| > 0 && k < |options[0].0| && 'a' <= options[0].0[k] <= 'z'
    ensures AvailablePeriods(data, vehicleId) == Failure(NotANumber(options[0].0))
  {
    GradeKeyedDataNotConvertible(options, k);
  }
}
