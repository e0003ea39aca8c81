/**
 * The interest-rate tables of the three capitals and the rate resolver: a
 * brand override, else the first price tier whose ceiling admits the price;
 * then the additive adjustments; floored at zero.
 */
module InterestRates {
  import opened Wrappers

  /** A tier ceiling: a price limit, or float('inf') for the last tier. */
  datatype Ceiling = Finite(limit: real) | Unbounded

  datatype Tier = Tier(maxPrice: Ceiling, rate: real)

  /** The five adjustment deltas; every capital defines all five. */
  datatype Adjustments = Adjustments(
    domesticBrand: real,
    importBrand: real,
    evVehicle: real,
    longTerm48m: real,
    highCredit: real)

  datatype CapitalRates = CapitalRates(priceTiers: seq<Tier>, adjustments: Adjustments, brandRates: map<string, real>)

  const MeritzRates := CapitalRates(
    [Tier(Finite(30000000.0), 0.065), Tier(Finite(50000000.0), 0.060),
     Tier(Finite(80000000.0), 0.055), Tier(Unbounded, 0.050)],
    Adjustments(-0.005, 0.005, -0.003, -0.002, -0.003),
    map["Audi" := 0.0505, "Benz" := 0.0505, "BMW" := 0.0505, "Cadillac" := 0.054,
        "Citroen" := 0.058, "Ford" := 0.058, "Honda" := 0.058, "Jaguar" := 0.058,
        "Jeep" := 0.058, "Lamborghini" := 0.058, "Landrover" := 0.058, "Lexus" := 0.058,
        "Porsche" := 0.0505, "Tesla" := 0.058, "Volvo" := 0.058,
        "현대" := 0.048, "기아" := 0.048, "제네시스" := 0.048])

  const NhRates := CapitalRates(
    [Tier(Finite(30000000.0), 0.068), Tier(Finite(50000000.0), 0.063),
     Tier(Finite(80000000.0), 0.058), Tier(Unbounded, 0.053)],
    Adjustments(-0.003, 0.006, -0.004, -0.002, -0.003),
    map[])

  const MgRates := CapitalRates(
    [Tier(Finite(30000000.0), 0.070), Tier(Finite(50000000.0), 0.065),
     Tier(Finite(80000000.0), 0.060), Tier(Unbounded, 0.055)],
    Adjustments(0.000, 0.008, -0.005, -0.002, -0.003),
    map[])

  /** INTEREST_RATES, keyed by capital id. */
  const InterestRateTable: map<string, CapitalRates> :=
    map["meritz_capital" := MeritzRates, "nh_capital" := NhRates, "mg_capital" := MgRates]

  /** The ValueError message for an unknown capital. */
  function UnknownCapital(capitalId: string): string {
    "캐피탈 " + capitalId + "의 금리 데이터가 없습니다"
  }

  /** price <= max_price, where every price is below float('inf'). */
  predicate Within(price: real, ceiling: Ceiling) {
    ceiling.Unbounded? || price <= ceiling.limit
  }

  /** The rate of the first tier, in list order, whose ceiling admits the price. */
  function FirstMatch(tiers: seq<Tier>, price: real): (r: Option<real>)
    ensures r.Some? <==> exists k :: 0 <= k < |tiers| && Within(price, tiers[k].maxPrice)
  {
    if |tiers| == 0 then None
    else if Within(price, tiers[0].maxPrice) then Some(tiers[0].rate)
    else
      var rest := FirstMatch(tiers[1..], price);
      assert forall k :: 1 <= k < |tiers| ==> tiers[k] == tiers[1..][k - 1];
      assert forall k :: 0 <= k < |tiers| - 1 ==> tiers[1..][k] == tiers[k + 1];
      rest
  }

  /** The first matching tier's rate, or the last tier's rate when none matches. */
  function TierRate(tiers: seq<Tier>, price: real): real
    requires |tiers| > 0
  {
    match FirstMatch(tiers, price)
    case Some(rate) => rate
    case None => tiers[|tiers| - 1].rate
  }

  /** FirstMatch picks the lowest index whose ceiling admits the price. */
  lemma {:induction false} FirstMatchIsFirst(tiers: seq<Tier>, price: real, k: nat)
    requires k < |tiers| && Within(price, tiers[k].maxPrice)
    requires forall j :: 0 <= j < k ==> !Within(price, tiers[j].maxPrice)
    ensures FirstMatch(tiers, price) == Some(tiers[k].rate)
  {
    if k > 0 {
      assert tiers[1..][k - 1] == tiers[k];
      forall j | 0 <= j < k - 1
        ensures !Within(price, tiers[1..][j].maxPrice)
      {
        assert tiers[1..][j] == tiers[j + 1];
      }
      FirstMatchIsFirst(tiers[1..], price, k - 1);
    }
  }

  /** Brand names are truthy when present and non-empty. */
  predicate Truthy(brand: Option<string>) {
    brand.Some? && brand.value != ""
  }

  /** The base rate of get_interest_rate: the brand override, if any, replaces the tiers entirely. */
  function BaseRate(c: CapitalRates, price: real, brand: Option<string>): real
    requires |c.priceTiers| > 0
  {
    if Truthy(brand) && brand.value in c.brandRates then c.brandRates[brand.value]
    else TierRate(c.priceTiers, price)
  }

  /** The sum of the deltas whose conditions hold: exactly one of import / domestic, then EV, term >= 48, high credit. */
  function AppliedDeltas(a: Adjustments, isImport: bool, isEv: bool, months: int, highCredit: bool): real {
    (if isImport then a.importBrand else a.domesticBrand)
    + (if isEv then a.evVehicle else 0.0)
    + (if months >= 48 then a.longTerm48m else 0.0)
    + (if highCredit then a.highCredit else 0.0)
  }

  /** The resolved rate: base plus the applied deltas, never below zero. */
  function InterestRate(c: CapitalRates, price: real, brand: Option<string>, isImport: bool, isEv: bool,
                        months: int, highCredit: bool): (r: real)
    requires |c.priceTiers| > 0
    ensures r >= 0.0
    ensures r >= BaseRate(c, price, brand) + AppliedDeltas(c.adjustments, isImport, isEv, months, highCredit)
    ensures r > 0.0 ==> r == BaseRate(c, price, brand) + AppliedDeltas(c.adjustments, isImport, isEv, months, highCredit)
  {
    var adjusted := BaseRate(c, price, brand) + AppliedDeltas(c.adjustments, isImport, isEv, months, highCredit);
    if adjusted > 0.0 then adjusted else 0.0
  }

  /** Every capital in the table has at least one tier. */
  lemma TableHasTiers(capitalId: string)
    requires capitalId in InterestRateTable
    ensures |InterestRateTable[capitalId].priceTiers| > 0
  {
  }

  /** get_interest_rate: a ValueError for an unknown capital, else the resolved rate. */
  method GetInterestRate(capitalId: string, price: real, brand: Option<string>, isImport: bool, isEv: bool,
                         months: int, highCredit: bool) returns (r: Result<real, string>)
    ensures capitalId !in InterestRateTable ==> r == Failure(UnknownCapital(capitalId))
    ensures capitalId in InterestRateTable ==>
      |InterestRateTable[capitalId].priceTiers| > 0 &&
      r == Success(InterestRate(InterestRateTable[capitalId], price, brand, isImport, isEv, months, highCredit))
  {
    if capitalId !in InterestRateTable {
      return Failure(UnknownCapital(capitalId));
    }
    var c := InterestRateTable[capitalId];
    TableHasTiers(capitalId);
    var baseRate: real;
    if Truthy(brand) && brand.value in c.brandRates {
      baseRate := c.brandRates[brand.value];
    } else {
      var found := ScanTiers(c.priceTiers, price);
      baseRate := if found.Some? then found.value else c.priceTiers[|c.priceTiers| - 1].rate;
    }
    var adjustments := c.adjustments;
    var adjusted := baseRate;
    if isImport {
      adjusted := adjusted + adjustments.importBrand;
    } else {
      adjusted := adjusted + adjustments.domesticBrand;
    }
    if isEv {
      adjusted := adjusted + adjustments.evVehicle;
    }
    if months >= 48 {
      adjusted := adjusted + adjustments.longTerm48m;
    }
    if highCredit {
      adjusted := adjusted + adjustments.highCredit;
    }
    return Success(if adjusted > 0.0 then adjusted else 0.0);
  }

  /** The for-loop over price_tiers that breaks at the first tier admitting the price. */
  method ScanTiers(tiers: seq<Tier>, price: real) returns (found: Option<real>)
    ensures found == FirstMatch(tiers, price)
  {
    found := None;
    var i := 0;
    while i < |tiers|
      invariant 0 <= i <= |tiers|
      invariant FirstMatch(tiers, price) == FirstMatch(tiers[i..], price)
    {
      if Within(price, tiers[i].maxPrice) {
        found := Some(tiers[i].rate);
        break;
      }
      assert tiers[i..][1..] == tiers[i + 1..];
      i := i + 1;
    }
  }

  /** get_base_rate: the tier rate alone, ignoring brand and adjustments. */
  method GetBaseRate(capitalId: string, price: real) returns (r: Result<real, string>)
    ensures capitalId !in InterestRateTable ==> r == Failure(UnknownCapital(capitalId))
    ensures capitalId in InterestRateTable ==>
      |InterestRateTable[capitalId].priceTiers| > 0 &&
      r == Success(TierRate(InterestRateTable[capitalId].priceTiers, price))
  {
    if capitalId !in InterestRateTable {
      return Failure(UnknownCapital(capitalId));
    }
    var tiers := InterestRateTable[capitalId].priceTiers;
    TableHasTiers(capitalId);
    var i := 0;
    while i < |tiers|
      invariant 0 <= i <= |tiers|
      invariant FirstMatch(tiers, price) == FirstMatch(tiers[i..], price)
    {
      if Within(price, tiers[i].maxPrice) {
        return Success(tiers[i].rate);
      }
      assert tiers[i..][1..] == tiers[i + 1..];
      i := i + 1;
    }
    return Success(tiers[|tiers| - 1].rate);
  }

  /** get_brand_rate: None for an unknown capital or a brand without an override. */
  function GetBrandRate(capitalId: string, brand: string): (r: Option<real>)
    ensures r.Some? <==> capitalId in InterestRateTable && brand in InterestRateTable[capitalId].brandRates
    ensures r.Some? ==> r.value == InterestRateTable[capitalId].brandRates[brand]
  {
    if capitalId !in InterestRateTable then None
    else if brand in InterestRateTable[capitalId].brandRates then Some(InterestRateTable[capitalId].brandRates[brand])
    else None
  }

  /** get_rate_adjustments: a ValueError for an unknown capital, else its adjustment table. */
  function GetRateAdjustments(capitalId: string): (r: Result<Adjustments, string>)
    ensures r.Failure? <==> capitalId !in InterestRateTable
    ensures r.Failure? ==> r.error == UnknownCapital(capitalId)
    ensures r.Success? ==> r.value == InterestRateTable[capitalId].adjustments
  {
    if capitalId !in InterestRateTable then Failure(UnknownCapital(capitalId))
    else Success(InterestRateTable[capitalId].adjustments)
  }

  /** get_available_capitals: every key of the table, in declaration order, once each. */
  function AvailableCapitals(): (s: seq<string>)
    ensures forall id :: id in s <==> id in InterestRateTable
    ensures forall i, j :: 0 <= i < j < |s| ==> s[i] != s[j]
  {
    ["meritz_capital", "nh_capital", "mg_capital"]
  }

  // ----- properties -----

  /** With an override for the brand, the price does not matter: the tiers are not consulted. */
  lemma OverrideIgnoresTiers(c: CapitalRates, p1: real, p2: real, brand: Option<string>,
                             isImport: bool, isEv: bool, months: int, highCredit: bool)
    requires |c.priceTiers| > 0
    requires Truthy(brand) && brand.value in c.brandRates
    ensures BaseRate(c, p1, brand) == c.brandRates[brand.value]
    ensures InterestRate(c, p1, brand, isImport, isEv, months, highCredit)
         == InterestRate(c, p2, brand, isImport, isEv, months, highCredit)
  {
  }

  /** Without an override, the base of get_interest_rate is exactly what get_base_rate returns. */
  lemma NoOverrideBaseIsTierRate(c: CapitalRates, price: real, brand: Option<string>)
    requires |c.priceTiers| > 0
    requires !(Truthy(brand) && brand.value in c.brandRates)
    ensures BaseRate(c, price, brand) == TierRate(c.priceTiers, price)
  {
  }

  /** Import and domestic deltas are exclusive: switching the flag swaps exactly one delta for the other. */
  lemma ImportOrDomestic(a: Adjustments, isEv: bool, months: int, highCredit: bool)
    ensures AppliedDeltas(a, true, isEv, months, highCredit) - AppliedDeltas(a, false, isEv, months, highCredit)
         == a.importBrand - a.domesticBrand
  {
  }

  /** The EV, long-term and high-credit deltas are each added independently, exactly when their condition holds. */
  lemma DeltasIndependent(a: Adjustments, isImport: bool, isEv: bool, months: int, highCredit: bool)
    ensures AppliedDeltas(a, isImport, true, months, highCredit) == AppliedDeltas(a, isImport, false, months, highCredit) + a.evVehicle
    ensures AppliedDeltas(a, isImport, isEv, months, true) == AppliedDeltas(a, isImport, isEv, months, false) + a.highCredit
    ensures months >= 48 ==> AppliedDeltas(a, isImport, isEv, months, highCredit) == AppliedDeltas(a, isImport, isEv, 36, highCredit) + a.longTerm48m
    ensures months < 48 ==> AppliedDeltas(a, isImport, isEv, months, highCredit) == AppliedDeltas(a, isImport, isEv, 36, highCredit)
  {
  }

  /** Tier ceilings strictly ascend in list order and only the last tier is unbounded. */
  predicate AscendingTiers(tiers: seq<Tier>) {
    && |tiers| > 0
    && tiers[|tiers| - 1].maxPrice.Unbounded?
    && (forall i :: 0 <= i < |tiers| - 1 ==> tiers[i].maxPrice.Finite?)
    && (forall i, j :: 0 <= i < j < |tiers| - 1 ==> tiers[i].maxPrice.limit < tiers[j].maxPrice.limit)
  }

  /** Tier rates never rise from one tier to a later one. */
  predicate DescendingRates(tiers: seq<Tier>) {
    forall i, j :: 0 <= i < j < |tiers| ==> tiers[j].rate <= tiers[i].rate
  }

  /** Every capital's tiers ascend and end unbounded, with rates falling as the price rises. */
  lemma TableTiersWellFormed(capitalId: string)
    requires capitalId in InterestRateTable
    ensures AscendingTiers(InterestRateTable[capitalId].priceTiers)
    ensures DescendingRates(InterestRateTable[capitalId].priceTiers)
  {
    var t := InterestRateTable[capitalId].priceTiers;
    if capitalId == "meritz_capital" {
      StandardTiersWellFormed(t, 0.065, 0.060, 0.055, 0.050);
    } else if capitalId == "nh_capital" {
      StandardTiersWellFormed(t, 0.068, 0.063, 0.058, 0.053);
    } else {
      StandardTiersWellFormed(t, 0.070, 0.065, 0.060, 0.055);
    }
  }

  /** The 30M / 50M / 80M / unbounded tier layout that all three capitals share. */
  lemma StandardTiersWellFormed(t: seq<Tier>, a: real, b: real, c: real, d: real)
    requires t == [Tier(Finite(30000000.0), a), Tier(Finite(50000000.0), b),
                   Tier(Finite(80000000.0), c), Tier(Unbounded, d)]
    requires d <= c <= b <= a
    ensures AscendingTiers(t) && DescendingRates(t)
  {
  }

  /** With an unbounded last tier some tier always matches, so the fallback to the last tier is unreachable. */
  lemma FallbackUnreachable(tiers: seq<Tier>, price: real)
    requires AscendingTiers(tiers)
    ensures FirstMatch(tiers, price).Some?
  {
    assert Within(price, tiers[|tiers| - 1].maxPrice);
  }

  /** The index of the first tier whose ceiling admits the price, for well-formed tiers. */
  lemma FirstMatchIndex(tiers: seq<Tier>, price: real) returns (k: nat)
    requires AscendingTiers(tiers)
    ensures k < |tiers| && Within(price, tiers[k].maxPrice)
    ensures forall j :: 0 <= j < k ==> !Within(price, tiers[j].maxPrice)
    ensures FirstMatch(tiers, price) == Some(tiers[k].rate)
  {
    k := 0;
    while !Within(price, tiers[k].maxPrice)
      invariant k < |tiers|
      invariant forall j :: 0 <= j < k ==> !Within(price, tiers[j].maxPrice)
      decreases |tiers| - k
    {
      k := k + 1;
    }
    FirstMatchIsFirst(tiers, price, k);
  }

  /** With ascending ceilings and falling rates, a dearer vehicle never gets a higher tier rate. */
  lemma TierRateNonIncreasing(tiers: seq<Tier>, p1: real, p2: real)
    requires AscendingTiers(tiers) && DescendingRates(tiers)
    requires p1 <= p2
    ensures TierRate(tiers, p2) <= TierRate(tiers, p1)
  {
    var k1 := FirstMatchIndex(tiers, p1);
    var k2 := FirstMatchIndex(tiers, p2);
    if k2 < k1 {
      assert Within(p1, tiers[k2].maxPrice);
      assert false;
    }
  }

  /** Meritz, BMW (an override of 5.05%), import, 36 months, no EV, no credit flag: 5.05% + 0.5%p = 5.55%. */
  lemma MeritzBmwExample(price: real)
    ensures InterestRate(MeritzRates, price, Some("BMW"), true, false, 36, false) == 0.0555
  {
  }
}
