/**
 * The vehicle catalog: records keyed by vehicle id in file order, read from
 * disk at most once per process, and the queries over it (lookup, filtered
 * list by price, brands, models, trims and keyword search).
 */
module VehicleMaster {
  import opened Wrappers
  import opened Dicts
  import opened Text
  import opened Sorting
  import opened Lists

  datatype Vehicle = Vehicle(
    brand: string, model: string, trim: string, displayName: string, price: int, isImport: bool)

  /** vehicle_master.json: vehicle id to record, in file order. */
  type Catalog = Dict<string, Vehicle>
  type Entry = (string, Vehicle)

  datatype CatalogError = FileMissing | NotFound(message: string)

  function NotFoundMessage(vehicleId: string): string {
    "차량 ID를 찾을 수 없습니다: " + vehicleId
  }

  /** One entry of get_vehicle_list. */
  datatype ListItem = ListItem(id: string, display: string, brand: string, price: int, isImport: bool)
  /** One entry of get_trims_by_brand_model. */
  datatype TrimItem = TrimItem(id: string, trim: string, display: string, price: int)
  /** One entry of search_vehicles. */
  datatype SearchItem = SearchItem(id: string, display: string, brand: string, price: int)

  function AsListItem(e: Entry): ListItem {
    ListItem(e.0, e.1.displayName, e.1.brand, e.1.price, e.1.isImport)
  }

  function AsTrimItem(e: Entry): TrimItem {
    TrimItem(e.0, e.1.trim, e.1.displayName, e.1.price)
  }

  function AsSearchItem(e: Entry): SearchItem {
    SearchItem(e.0, e.1.displayName, e.1.brand, e.1.price)
  }

  // ----- the filters -----

  /** A brand filter applies only when given and non-empty; an import filter only when given. */
  predicate Selected(v: Vehicle, brand: Option<string>, isImport: Option<bool>) {
    && (brand.None? || brand.value == "" || v.brand == brand.value)
    && (isImport.None? || v.isImport == isImport.value)
  }

  predicate IsTrimOf(v: Vehicle, brand: string, model: string) {
    v.brand == brand && v.model == model
  }

  /** The lower-cased keyword occurs in the lower-cased brand, model or trim. */
  predicate MatchesKeyword(v: Vehicle, keywordLower: string) {
    Contains(Lower(v.brand), keywordLower) || Contains(Lower(v.model), keywordLower)
      || Contains(Lower(v.trim), keywordLower)
  }

  function ListPriceOrder(a: ListItem, b: ListItem): bool {
    a.price <= b.price
  }

  function TrimPriceOrder(a: TrimItem, b: TrimItem): bool {
    a.price <= b.price
  }

  lemma PriceOrdersArePreorders()
    ensures TotalPreorder(ListPriceOrder) && TotalPreorder(TrimPriceOrder)
  {
  }

  // ----- the queries as functions of the catalog -----

  /** get_vehicle. */
  function VehicleLookup(c: Catalog, vehicleId: string): (r: Result<Vehicle, CatalogError>)
    ensures r.Success? <==> HasKey(c, vehicleId)
    ensures r.Success? ==> (vehicleId, r.value) in c
    ensures r.Failure? ==> r.error == NotFound(NotFoundMessage(vehicleId))
  {
    match Get(c, vehicleId)
    case Some(v) => Success(v)
    case None => Failure(NotFound(NotFoundMessage(vehicleId)))
  }

  function Listed(c: Catalog, brand: Option<string>, isImport: Option<bool>): seq<ListItem> {
    FilterMap(c, (e: Entry) => Selected(e.1, brand, isImport), AsListItem)
  }

  function VehicleList(c: Catalog, brand: Option<string>, isImport: Option<bool>): seq<ListItem> {
    StableSort(Listed(c, brand, isImport), ListPriceOrder)
  }

  function Trims(c: Catalog, brand: string, model: string): seq<TrimItem> {
    StableSort(FilterMap(c, (e: Entry) => IsTrimOf(e.1, brand, model), AsTrimItem), TrimPriceOrder)
  }

  function SearchMatches(c: Catalog, keyword: string): seq<SearchItem> {
    FilterMap(c, (e: Entry) => MatchesKeyword(e.1, Lower(keyword)), AsSearchItem)
  }

  function Search(c: Catalog, keyword: string, limit: int): seq<SearchItem> {
    Take(SearchMatches(c, keyword), limit)
  }

  function BrandOf(e: Entry): string {
    e.1.brand
  }

  function ModelOf(e: Entry): string {
    e.1.model
  }

  /** get_brands: the distinct brands in ascending order. */
  function Brands(c: Catalog): (r: seq<string>)
    ensures StrictlySorted(r, StringOrder)
    ensures forall b :: b in r <==> exists i :: 0 <= i < |c| && c[i].1.brand == b
  {
    var all := FilterMap(c, (_: Entry) => true, BrandOf);
    StringLessIsStrictTotal();
    SortedUniqueCorrect(all, StringOrder);
    forall b ensures b in all <==> exists i :: 0 <= i < |c| && c[i].1.brand == b {
      FilterMapMembers(c, (_: Entry) => true, BrandOf, b);
    }
    SortedUnique(all, StringOrder)
  }

  function ModelsOf(c: Catalog, brand: string): seq<string> {
    SortedUnique(FilterMap(c, (e: Entry) => e.1.brand == brand, ModelOf), StringOrder)
  }

  // ----- properties of the queries -----

  /** get_vehicle_list holds exactly the selected records, sorted by price, with catalog order among equal prices. */
  lemma VehicleListCorrect(c: Catalog, brand: Option<string>, isImport: Option<bool>, e: ListItem)
    ensures SortedBy(VehicleList(c, brand, isImport), ListPriceOrder)
    ensures multiset(VehicleList(c, brand, isImport)) == multiset(Listed(c, brand, isImport))
    ensures EquivalentTo(VehicleList(c, brand, isImport), e, ListPriceOrder)
         == EquivalentTo(Listed(c, brand, isImport), e, ListPriceOrder)
    ensures e in VehicleList(c, brand, isImport)
        <==> exists i :: 0 <= i < |c| && Selected(c[i].1, brand, isImport) && AsListItem(c[i]) == e
  {
    PriceOrdersArePreorders();
    StableSortCorrect(Listed(c, brand, isImport), ListPriceOrder, e);
    FilterMapMembers(c, (x: Entry) => Selected(x.1, brand, isImport), AsListItem, e);
    assert e in VehicleList(c, brand, isImport) <==> e in multiset(Listed(c, brand, isImport));
  }

  /** Without filters every record is listed. */
  lemma UnfilteredListsAll(c: Catalog, i: nat)
    requires i < |c|
    ensures AsListItem(c[i]) in VehicleList(c, None, None)
    ensures AsListItem(c[i]) in VehicleList(c, Some(""), None)
  {
    VehicleListCorrect(c, None, None, AsListItem(c[i]));
    VehicleListCorrect(c, Some(""), None, AsListItem(c[i]));
  }

  /** get_trims_by_brand_model holds exactly the records of that brand and model, sorted by price. */
  lemma TrimsCorrect(c: Catalog, brand: string, model: string, t: TrimItem)
    ensures SortedBy(Trims(c, brand, model), TrimPriceOrder)
    ensures t in Trims(c, brand, model)
        <==> exists i :: 0 <= i < |c| && IsTrimOf(c[i].1, brand, model) && AsTrimItem(c[i]) == t
  {
    var found := FilterMap(c, (e: Entry) => IsTrimOf(e.1, brand, model), AsTrimItem);
    PriceOrdersArePreorders();
    StableSortCorrect(found, TrimPriceOrder, t);
    FilterMapMembers(c, (e: Entry) => IsTrimOf(e.1, brand, model), AsTrimItem, t);
    assert t in Trims(c, brand, model) <==> t in multiset(found);
  }

  /** get_models_by_brand: the distinct models of that brand, ascending. */
  lemma ModelsCorrect(c: Catalog, brand: string)
    ensures StrictlySorted(ModelsOf(c, brand), StringOrder)
    ensures forall m :: m in ModelsOf(c, brand) <==> exists i :: 0 <= i < |c| && c[i].1.brand == brand && c[i].1.model == m
  {
    var all := FilterMap(c, (e: Entry) => e.1.brand == brand, ModelOf);
    StringLessIsStrictTotal();
    SortedUniqueCorrect(all, StringOrder);
    forall m ensures m in all <==> exists i :: 0 <= i < |c| && c[i].1.brand == brand && c[i].1.model == m {
      FilterMapMembers(c, (e: Entry) => e.1.brand == brand, ModelOf, m);
    }
  }

  /** search_vehicles: at most `limit` results for a non-negative limit, a prefix of the matches in catalog order, each one matching. */
  lemma SearchCorrect(c: Catalog, keyword: string, limit: int)
    ensures limit >= 0 ==> |Search(c, keyword, limit)| <= limit
    ensures Search(c, keyword, limit) == SearchMatches(c, keyword)[..|Search(c, keyword, limit)|]
    ensures forall s :: s in Search(c, keyword, limit) ==>
      exists i :: 0 <= i < |c| && MatchesKeyword(c[i].1, Lower(keyword)) && AsSearchItem(c[i]) == s
  {
    var all := SearchMatches(c, keyword);
    FilterMapSound(c, (e: Entry) => MatchesKeyword(e.1, Lower(keyword)), AsSearchItem);
    assert forall s :: s in Search(c, keyword, limit) ==> s in all;
  }

  /** Matching ignores case: a keyword and its lower-cased form find the same vehicles. */
  lemma SearchIgnoresCase(c: Catalog, keyword: string, limit: int)
    ensures Search(c, Lower(keyword), limit) == Search(c, keyword, limit)
  {
    LowerIdempotent(keyword);
  }

  /** The empty keyword matches every vehicle, so it returns the first `limit` records. */
  lemma EmptyKeywordMatchesAll(c: Catalog, i: nat)
    requires i < |c|
    ensures AsSearchItem(c[i]) in SearchMatches(c, "")
  {
    ContainsTrivial(Lower(c[i].1.brand));
    FilterMapMembers(c, (e: Entry) => MatchesKeyword(e.1, Lower("")), AsSearchItem, AsSearchItem(c[i]));
  }

  // ----- the process-wide cache -----

  class VehicleCatalog {
    /** vehicle_master.json as parsed, or None when the file does not exist. */
    const source: Option<Catalog>
    /** _VEHICLE_CACHE. */
    var cache: Option<Catalog>
    /** How many times the file has been read. */
    ghost var fileReads: nat

    ghost predicate Valid()
      reads this
    {
      && (cache.Some? ==> source.Some? && cache.value == source.value)
      && fileReads == (if cache.Some? then 1 else 0)
    }

    constructor(source: Option<Catalog>)
      ensures Valid()
      ensures this.source == source && cache == None && fileReads == 0
    {
      this.source := source;
      cache := None;
      fileReads := 0;
    }

    /** _load_vehicles: reads the file the first time only; a missing file is FileNotFoundError. */
    method Load() returns (r: Result<Catalog, CatalogError>)
      requires Valid()
      modifies this
      ensures Valid()
      ensures source.None? ==> r == Failure(FileMissing)
      ensures source.Some? ==> r == Success(source.value) && cache == source
      ensures fileReads <= 1
      ensures old(cache).Some? ==> cache == old(cache) && fileReads == old(fileReads)
      ensures cache == source
    {
      if cache.None? {
        if source.None? {
          return Failure(FileMissing);
        }
        cache := source;
        fileReads := fileReads + 1;
      }
      return Success(cache.value);
    }

    method GetVehicle(vehicleId: string) returns (r: Result<Vehicle, CatalogError>)
      requires Valid()
      modifies this
      ensures Valid() && fileReads <= 1
      ensures cache == source && (old(cache).Some? ==> fileReads == old(fileReads))
      ensures source.None? ==> r == Failure(FileMissing)
      ensures source.Some? ==> r == VehicleLookup(source.value, vehicleId)
    {
      var c := Load();
      if c.Failure? {
        return Failure(c.error);
      }
      if !HasKey(c.value, vehicleId) {
        return Failure(NotFound(NotFoundMessage(vehicleId)));
      }
      return VehicleLookup(c.value, vehicleId);
    }

    method GetVehicleList(brand: Option<string>, isImport: Option<bool>)
      returns (r: Result<seq<ListItem>, CatalogError>)
      requires Valid()
      modifies this
      ensures Valid() && fileReads <= 1
      ensures cache == source && (old(cache).Some? ==> fileReads == old(fileReads))
      ensures source.None? ==> r == Failure(FileMissing)
      ensures source.Some? ==> r == Success(VehicleList(source.value, brand, isImport))
    {
      var loaded := Load();
      if loaded.Failure? {
        return Failure(loaded.error);
      }
      var items := ListVehicles(loaded.value, brand, isImport);
      return Success(items);
    }

    /** get_all_vehicle_ids: the catalog's ids in file order. */
    method GetAllVehicleIds() returns (r: Result<seq<string>, CatalogError>)
      requires Valid()
      modifies this
      ensures Valid() && fileReads <= 1
      ensures cache == source && (old(cache).Some? ==> fileReads == old(fileReads))
      ensures source.None? ==> r == Failure(FileMissing)
      ensures source.Some? ==> r.Success? && |r.value| == |source.value|
      ensures source.Some? ==> forall i :: 0 <= i < |source.value| ==> r.value[i] == source.value[i].0
    {
      var c := Load();
      if c.Failure? {
        return Failure(c.error);
      }
      return Success(Keys(c.value));
    }

    /** validate_vehicle_exists: whether the id is in the catalog; a missing file still raises. */
    method ValidateVehicleExists(vehicleId: string) returns (r: Result<bool, CatalogError>)
      requires Valid()
      modifies this
      ensures Valid() && fileReads <= 1
      ensures cache == source && (old(cache).Some? ==> fileReads == old(fileReads))
      ensures source.None? ==> r == Failure(FileMissing)
      ensures source.Some? ==> r == Success(HasKey(source.value, vehicleId))
      ensures source.Some? ==> (r.value <==> VehicleLookup(source.value, vehicleId).Success?)
    {
      var c := Load();
      if c.Failure? {
        return Failure(c.error);
      }
      return Success(HasKey(c.value, vehicleId));
    }

    method GetBrands() returns (r: Result<seq<string>, CatalogError>)
      requires Valid()
      modifies this
      ensures Valid() && fileReads <= 1
      ensures cache == source && (old(cache).Some? ==> fileReads == old(fileReads))
      ensures source.None? ==> r == Failure(FileMissing)
      ensures source.Some? ==> r == Success(Brands(source.value))
    {
      var loaded := Load();
      if loaded.Failure? {
        return Failure(loaded.error);
      }
      return Success(Brands(loaded.value));
    }

    method GetModelsByBrand(brand: string) returns (r: Result<seq<string>, CatalogError>)
      requires Valid()
      modifies this
      ensures Valid() && fileReads <= 1
      ensures cache == source && (old(cache).Some? ==> fileReads == old(fileReads))
      ensures source.None? ==> r == Failure(FileMissing)
      ensures source.Some? ==> r == Success(ModelsOf(source.value, brand))
    {
      var loaded := Load();
      if loaded.Failure? {
        return Failure(loaded.error);
      }
      var models := CollectModels(loaded.value, brand);
      return Success(models);
    }

    method GetTrimsByBrandModel(brand: string, model: string) returns (r: Result<seq<TrimItem>, CatalogError>)
      requires Valid()
      modifies this
      ensures Valid() && fileReads <= 1
      ensures cache == source && (old(cache).Some? ==> fileReads == old(fileReads))
      ensures source.None? ==> r == Failure(FileMissing)
      ensures source.Some? ==> r == Success(Trims(source.value, brand, model))
    {
      var loaded := Load();
      if loaded.Failure? {
        return Failure(loaded.error);
      }
      var items := CollectTrims(loaded.value, brand, model);
      return Success(items);
    }

    method SearchVehicles(keyword: string, limit: int) returns (r: Result<seq<SearchItem>, CatalogError>)
      requires Valid()
      modifies this
      ensures Valid() && fileReads <= 1
      ensures cache == source && (old(cache).Some? ==> fileReads == old(fileReads))
      ensures source.None? ==> r == Failure(FileMissing)
      ensures source.Some? ==> r == Success(Search(source.value, keyword, limit))
    {
      var loaded := Load();
      if loaded.Failure? {
        return Failure(loaded.error);
      }
      var items := SearchCatalog(loaded.value, keyword, limit);
      return Success(items);
    }
  }

  // ----- the loops of the queries, over the loaded catalog -----

  /** get_vehicle_list: the selected records, appended in catalog order, then sorted by price. */
  method ListVehicles(c: Catalog, brand: Option<string>, isImport: Option<bool>) returns (r: seq<ListItem>)
    ensures r == VehicleList(c, brand, isImport)
  {
    var result: seq<ListItem> := [];
    for i := 0 to |c|
      invariant result == FilterMap(c[..i], (e: Entry) => Selected(e.1, brand, isImport), AsListItem)
    {
      assert c[..i + 1] == c[..i] + [c[i]];
      FilterMapSnoc(c[..i], c[i], (e: Entry) => Selected(e.1, brand, isImport), AsListItem);
      if (brand.Some? && brand.value != "") && c[i].1.brand != brand.value {
        continue;
      }
      if isImport.Some? && c[i].1.isImport != isImport.value {
        continue;
      }
      result := result + [AsListItem(c[i])];
    }
    assert c[..|c|] == c;
    r := StableSort(result, ListPriceOrder);
  }

  /** get_models_by_brand: collects the brand's models in a loop, then sorts them without duplicates. */
  method CollectModels(c: Catalog, brand: string) returns (r: seq<string>)
    ensures r == ModelsOf(c, brand)
  {
    var models: seq<string> := [];
    for i := 0 to |c|
      invariant models == FilterMap(c[..i], (e: Entry) => e.1.brand == brand, ModelOf)
    {
      assert c[..i + 1] == c[..i] + [c[i]];
      FilterMapSnoc(c[..i], c[i], (e: Entry) => e.1.brand == brand, ModelOf);
      if c[i].1.brand == brand {
        models := models + [c[i].1.model];
      }
    }
    assert c[..|c|] == c;
    r := SortedUnique(models, StringOrder);
  }

  /** get_trims_by_brand_model: the records of that brand and model, then sorted by price. */
  method CollectTrims(c: Catalog, brand: string, model: string) returns (r: seq<TrimItem>)
    ensures r == Trims(c, brand, model)
  {
    var result: seq<TrimItem> := [];
    for i := 0 to |c|
      invariant result == FilterMap(c[..i], (e: Entry) => IsTrimOf(e.1, brand, model), AsTrimItem)
    {
      assert c[..i + 1] == c[..i] + [c[i]];
      FilterMapSnoc(c[..i], c[i], (e: Entry) => IsTrimOf(e.1, brand, model), AsTrimItem);
      if c[i].1.brand == brand && c[i].1.model == model {
        result := result + [AsTrimItem(c[i])];
      }
    }
    assert c[..|c|] == c;
    r := StableSort(result, TrimPriceOrder);
  }

  /** search_vehicles: the matches in catalog order, cut to `limit` with Python slicing. */
  method SearchCatalog(c: Catalog, keyword: string, limit: int) returns (r: seq<SearchItem>)
    ensures r == Search(c, keyword, limit)
  {
    var keywordLower := Lower(keyword);
    var result: seq<SearchItem> := [];
    for i := 0 to |c|
      invariant result == FilterMap(c[..i], (e: Entry) => MatchesKeyword(e.1, keywordLower), AsSearchItem)
    {
      assert c[..i + 1] == c[..i] + [c[i]];
      FilterMapSnoc(c[..i], c[i], (e: Entry) => MatchesKeyword(e.1, keywordLower), AsSearchItem);
      if MatchesKeyword(c[i].1, keywordLower) {
        result := result + [AsSearchItem(c[i])];
      }
    }
    assert c[..|c|] == c;
    r := Take(result, limit);
  }
}
