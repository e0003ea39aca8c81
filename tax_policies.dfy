/**
 * Fee tables for registering a leased vehicle: the regional public-bond
 * purchase and its resale discount, the registration fee, the delivery fee,
 * and their total rounded to 1000 won.
 */
module TaxPolicies {
  import opened Wrappers
  import opened Numeric

  /** Share of the vehicle price spent on public bonds, by region and vehicle type. */
  const PublicBondRates: map<string, map<string, real>> := map[
    "서울" := PassengerBonds(0.05),
    "부산" := PassengerBonds(0.05),
    "대구" := PassengerBonds(0.05),
    "인천" := PassengerBonds(0.09),
    "광주" := PassengerBonds(0.0),
    "대전" := PassengerBonds(0.05),
    "울산" := PassengerBonds(0.0),
    "경기" := PassengerBonds(0.0)
  ]

  /** One region's row of the bond table: only passenger cars ("승용") have a rate that can be non-zero. */
  function PassengerBonds(rate: real): map<string, real> {
    map["승용" := rate, "승용RV" := 0.0, "화물" := 0.0]
  }

  /** The regions of the bond table, in the order the table lists them. */
  const Regions: seq<string> := ["서울", "부산", "대구", "인천", "광주", "대전", "울산", "경기"]

  /** Discount at which the bonds are sold back, by region. */
  const PublicBondDiscount: map<string, real> := map[
    "서울" := 0.08, "부산" := 0.08, "대구" := 0.08, "인천" := 0.09,
    "광주" := 0.0, "대전" := 0.08, "울산" := 0.0, "경기" := 0.0
  ]

  const RegistrationFees: map<string, int> := map[
    "승용" := 200_000, "승용RV" := 200_000, "화물" := 150_000, "전기" := 200_000
  ]

  const DeliveryFees: map<string, map<string, int>> := map[
    "서울" := map["일반" := 100_000, "대형" := 150_000],
    "수도권" := map["일반" := 150_000, "대형" := 200_000],
    "전국" := map["일반" := 188_000, "대형" := 250_000]
  ]

  /** d.get(k, default). */
  function GetOr<V>(d: map<string, V>, k: string, default: V): (r: V)
    ensures k !in d ==> r == default
    ensures k in d ==> r == d[k]
  {
    if k in d then d[k] else default
  }

  function BondRate(region: string, vehicleType: string): real {
    GetOr(GetOr(PublicBondRates, region, map[]), vehicleType, 0.0)
  }

  function DiscountRate(region: string): real {
    GetOr(PublicBondDiscount, region, 0.0)
  }

  /** amount × rate, kept as one term. */
  function Share(amount: real, rate: real): real {
    amount * rate
  }

  datatype BondCost = BondCost(bondAmount: int, discountRate: real, discountAmount: int, actualCost: int)

  /** get_public_bond_cost: the three amounts are each rounded to 1000 from the unrounded values. */
  function PublicBondCost(price: real, region: string, vehicleType: string): (r: BondCost)
    ensures r.discountRate == DiscountRate(region)
  {
    var bond := Share(price, BondRate(region, vehicleType));
    var discount := Share(bond, DiscountRate(region));
    BondCost(Round1000(bond), DiscountRate(region), Round1000(discount), Round1000(bond - discount))
  }

  /** Every bond rate in the table is 0, 5 % or 9 %, and only passenger cars ("승용") buy bonds at all. */
  lemma BondRateTable(region: string, vehicleType: string)
    ensures BondRate(region, vehicleType) == 0.0 || BondRate(region, vehicleType) == 0.05
         || BondRate(region, vehicleType) == 0.09
    ensures vehicleType != "승용" ==> BondRate(region, vehicleType) == 0.0
    ensures region !in PublicBondRates ==> BondRate(region, vehicleType) == 0.0
  {
    if region in PublicBondRates {
      var rate :| rate in {0.0, 0.05, 0.09} && PublicBondRates[region] == PassengerBonds(rate);
    }
  }

  /** Every discount is between 0 and 9 %, and 0 for an unknown region. */
  lemma DiscountRateRange(region: string)
    ensures 0.0 <= DiscountRate(region) <= 0.09
    ensures region !in PublicBondDiscount ==> DiscountRate(region) == 0.0
  {
  }

  /** An unknown region or a vehicle type without bonds costs nothing. */
  lemma NoBondNoCost(price: real, region: string, vehicleType: string)
    requires region !in PublicBondRates || vehicleType != "승용"
    ensures PublicBondCost(price, region, vehicleType) == BondCost(0, DiscountRate(region), 0, 0)
  {
    BondRateTable(region, vehicleType);
    Round1000OfMultiple(0);
  }

  /** For a non-negative price the amount actually borne lies between 0 and the bond amount, after rounding too. */
  lemma ActualCostWithinBond(price: real, region: string, vehicleType: string)
    requires price >= 0.0
    ensures 0 <= PublicBondCost(price, region, vehicleType).actualCost
              <= PublicBondCost(price, region, vehicleType).bondAmount
    ensures 0 <= PublicBondCost(price, region, vehicleType).discountAmount
              <= PublicBondCost(price, region, vehicleType).bondAmount
  {
    BondRateTable(region, vehicleType);
    DiscountRateRange(region);
    ProductWithin(price, BondRate(region, vehicleType));
    RoundedShares(Share(price, BondRate(region, vehicleType)), DiscountRate(region));
  }

  lemma ProductWithin(x: real, f: real)
    requires 0.0 <= x && 0.0 <= f <= 1.0
    ensures 0.0 <= Share(x, f) <= x
  {
  }

  /** Splitting a non-negative amount into a discounted share and the rest keeps both rounded shares within the rounded whole. */
  lemma RoundedShares(bond: real, d: real)
    requires 0.0 <= bond && 0.0 <= d <= 1.0
    ensures 0 <= Round1000(bond - Share(bond, d)) <= Round1000(bond)
    ensures 0 <= Round1000(Share(bond, d)) <= Round1000(bond)
  {
    ProductWithin(bond, d);
    Round1000OfMultiple(0);
    Round1000Monotone(0.0, bond - Share(bond, d));
    Round1000Monotone(bond - Share(bond, d), bond);
    Round1000Monotone(0.0, Share(bond, d));
    Round1000Monotone(Share(bond, d), bond);
  }

  /** A 50,000,000 won passenger car registered in Seoul: 2,500,000 in bonds, 200,000 discount, 2,300,000 borne. */
  lemma SeoulExample()
    ensures PublicBondCost(50_000_000.0, "서울", "승용") == BondCost(2_500_000, 0.08, 200_000, 2_300_000)
  {
    assert BondRate("서울", "승용") == 0.05 && DiscountRate("서울") == 0.08;
    Round1000OfMultiple(2_500);
    Round1000OfMultiple(200);
    Round1000OfMultiple(2_300);
  }

  /** get_registration_fee. */
  function RegistrationFee(vehicleType: string, registrationMethod: string): (r: int)
  {
    if registrationMethod == "직접" then 50_000 else GetOr(RegistrationFees, vehicleType, 200_000)
  }

  /** Registering oneself costs 50,000; through an agent, 150,000 for a truck ("화물") and 200,000 for any other type, known or not. */
  lemma RegistrationFeeRule(vehicleType: string, registrationMethod: string)
    ensures RegistrationFee(vehicleType, registrationMethod)
         == if registrationMethod == "직접" then 50_000 else if vehicleType == "화물" then 150_000 else 200_000
  {
  }

  /** get_delivery_fee. */
  function DeliveryFee(distance: string, vehicleSize: string): (r: int)
  {
    GetOr(GetOr(DeliveryFees, distance, map[]), vehicleSize, 188_000)
  }

  /** Unknown distances or sizes fall back to the nationwide standard fee of 188,000; every fee is between 100,000 and 250,000. */
  lemma DeliveryFeeRule(distance: string, vehicleSize: string)
    ensures distance !in DeliveryFees ==> DeliveryFee(distance, vehicleSize) == 188_000
    ensures vehicleSize != "일반" && vehicleSize != "대형" ==> DeliveryFee(distance, vehicleSize) == 188_000
    ensures DeliveryFee("전국", "일반") == 188_000
    ensures 100_000 <= DeliveryFee(distance, vehicleSize) <= 250_000
  {
  }

  datatype FeeSummary = FeeSummary(
    publicBond: BondCost, registrationFee: int, deliveryFee: int, otherFees: real, totalFees: int)

  /** calculate_total_fees: the already-rounded bond cost plus the fees, rounded to 1000 once more. */
  function TotalFees(price: real, region: string, vehicleType: string, registrationMethod: string,
                     distance: string, vehicleSize: string, otherFees: real): (r: FeeSummary)
    ensures r.publicBond == PublicBondCost(price, region, vehicleType)
    ensures r.registrationFee == RegistrationFee(vehicleType, registrationMethod)
    ensures r.deliveryFee == DeliveryFee(distance, vehicleSize)
  {
    var bond := PublicBondCost(price, region, vehicleType);
    var registration := RegistrationFee(vehicleType, registrationMethod);
    var delivery := DeliveryFee(distance, vehicleSize);
    var total := bond.actualCost as real + registration as real + delivery as real + otherFees;
    FeeSummary(bond, registration, delivery, otherFees, Round1000(total))
  }

  /** Every table fee is a whole number of thousands, so with other fees in whole thousands the total is the plain sum. */
  lemma TotalFeesExact(price: real, region: string, vehicleType: string, registrationMethod: string,
                       distance: string, vehicleSize: string, k: int)
    ensures TotalFees(price, region, vehicleType, registrationMethod, distance, vehicleSize, (k * 1000) as real).totalFees
         == PublicBondCost(price, region, vehicleType).actualCost
            + RegistrationFee(vehicleType, registrationMethod) + DeliveryFee(distance, vehicleSize) + k * 1000
  {
    var a := PublicBondCost(price, region, vehicleType).actualCost;
    var g := RegistrationFee(vehicleType, registrationMethod);
    var d := DeliveryFee(distance, vehicleSize);
    RegistrationFeeRule(vehicleType, registrationMethod);
    DeliveryThousands(distance, vehicleSize);
    assert TotalFees(price, region, vehicleType, registrationMethod, distance, vehicleSize, (k * 1000) as real).totalFees
        == Round1000(a as real + g as real + d as real + (k * 1000) as real);
    ThousandsSum(a, g, d, k);
  }

  /** Amounts in whole thousands add up without rounding. */
  lemma ThousandsSum(a: int, g: int, d: int, k: int)
    requires a % 1000 == 0 && g % 1000 == 0 && d % 1000 == 0
    ensures Round1000(a as real + g as real + d as real + (k * 1000) as real) == a + g + d + k * 1000
  {
    var n := a / 1000 + g / 1000 + d / 1000 + k;
    assert a == a / 1000 * 1000 && g == g / 1000 * 1000 && d == d / 1000 * 1000;
    assert a as real + g as real + d as real + (k * 1000) as real == (n * 1000) as real;
    Round1000OfMultiple(n);
  }

  lemma DeliveryThousands(distance: string, vehicleSize: string)
    ensures DeliveryFee(distance, vehicleSize) % 1000 == 0
  {
  }

  /** Extra fees never lower the total. */
  lemma TotalFeesMonotone(price: real, region: string, vehicleType: string, registrationMethod: string,
                          distance: string, vehicleSize: string, o1: real, o2: real)
    requires o1 <= o2
    ensures TotalFees(price, region, vehicleType, registrationMethod, distance, vehicleSize, o1).totalFees
         <= TotalFees(price, region, vehicleType, registrationMethod, distance, vehicleSize, o2).totalFees
  {
    var a := PublicBondCost(price, region, vehicleType).actualCost as real
      + RegistrationFee(vehicleType, registrationMethod) as real + DeliveryFee(distance, vehicleSize) as real;
    Round1000Monotone(a + o1, a + o2);
  }

  /** get_available_regions: the bond table's regions in table order; each has a discount entry. */
  function AvailableRegions(): (r: seq<string>)
    ensures |r| == 8
    ensures forall region :: region in r <==> region in PublicBondRates
    ensures forall region :: region in r ==> region in PublicBondDiscount
  {
    Regions
  }
}
