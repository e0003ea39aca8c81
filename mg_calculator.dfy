/**
 * The MG Capital lease calculator: a tax-inclusive acquisition cost with a
 * VAT-exclusive acquisition tax truncated to 10 won, a residual value taken
 * from the vehicle price, and a level (PMT) payment with a balloon of the
 * residual value, truncated and floored to 100 won.
 */
module MgCalculator {
  import opened Numeric

  /** The price without value-added tax. */
  function PriceExclVat(price: int): real { price as real / 1.1 }

  /**
   * _calculate_acquisition_tax: electric first, then hybrid, then the default
   * 7%. Electric vehicles have the 7% tax reduced by the smaller of 4% and
   * 1,400,000, never below zero. Every amount is floored to 10 won.
   */
  function AcquisitionTax(price: int, isEv: bool, isHybrid: bool, companyLease: bool): (t: int)
    ensures t % 10 == 0
    ensures isEv ==> t >= 0
    ensures isEv ==>
      t == Max(Floor10(PriceExclVat(price) * 0.07) - Min(Floor10(PriceExclVat(price) * 0.04), 1400000), 0)
    ensures !isEv && isHybrid ==> t == Floor10(PriceExclVat(price) * 0.05)
    ensures !isEv && !isHybrid ==> t == Floor10(PriceExclVat(price) * 0.07)
  {
    var p := PriceExclVat(price);
    if isEv then
      var fullTax := IntFloor10(p * 0.07);
      var discount := Min(IntFloor10(p * 0.04), 1400000);
      TensDifference(fullTax, discount);
      Max(fullTax - discount, 0)
    else if isHybrid then
      IntFloor10(p * 0.05)
    else
      IntFloor10(p * 0.07)
  }

  /** Python's int(x // 10 * 10): the floor to 10 won is already whole, so int() keeps it. */
  function IntFloor10(x: real): (r: int)
    ensures r == Floor10(x)
  {
    TruncOfFloor10(x);
    Trunc(Floor10(x) as real)
  }

  /** The difference of two multiples of 10 is a multiple of 10. */
  lemma TensDifference(a: int, b: int)
    requires a % 10 == 0 && b % 10 == 0
    ensures (a - b) % 10 == 0
  {
    assert a - b == (a / 10 - b / 10) * 10;
  }

  function Min(a: int, b: int): int { if a <= b then a else b }

  function Max(a: int, b: int): int { if a >= b then a else b }

  /**
   * For a non-negative price every branch is non-negative, the electric
   * reduction never raises the tax above the default 7%, and it waives at
   * most 1,400,000 of it.
   */
  lemma AcquisitionTaxBounds(price: int, isHybrid: bool, companyLease: bool)
    requires price >= 0
    ensures AcquisitionTax(price, false, isHybrid, companyLease) >= 0
    ensures 0 <= AcquisitionTax(price, true, isHybrid, companyLease) <= AcquisitionTax(price, false, false, companyLease)
    ensures AcquisitionTax(price, true, isHybrid, companyLease) >= AcquisitionTax(price, false, false, companyLease) - 1400000
  {
    var p := PriceExclVat(price);
    assert p >= 0.0;
    assert Floor10(p * 0.04) >= 0 && Floor10(p * 0.05) >= 0 && Floor10(p * 0.07) >= 0;
  }

  /** A hybrid never pays more acquisition tax than a conventional vehicle of the same price. */
  lemma HybridBelowDefault(price: int, companyLease: bool)
    requires price >= 0
    ensures AcquisitionTax(price, false, true, companyLease) <= AcquisitionTax(price, false, false, companyLease)
  {
    var p := PriceExclVat(price);
    Floor10Monotone(p * 0.05, p * 0.07);
  }

  /** Flooring to 10 won never reverses the order of two amounts. */
  lemma Floor10Monotone(x: real, y: real)
    requires x <= y
    ensures Floor10(x) <= Floor10(y)
  {
    assert x / 10.0 <= y / 10.0;
  }

  /** _calculate_bond_cost: MG quotes carry no public bond, in every region. */
  function BondCost(price: int, region: string): (b: int)
    ensures b == 0
  {
    0
  }

  /** The dictionary _calculate_acquisition_cost returns. */
  datatype AcquisitionCost = AcquisitionCost(acquisitionTax: int, bondCost: int, registrationFee: int, total: int)

  /**
   * _calculate_acquisition_cost: price plus tax plus bond plus registration,
   * where bond and registration are always 0, so the total is price plus tax.
   */
  function CalculateAcquisitionCost(price: int, region: string, isEv: bool, isHybrid: bool, companyLease: bool): (c: AcquisitionCost)
    ensures c.acquisitionTax == AcquisitionTax(price, isEv, isHybrid, companyLease)
    ensures c.bondCost == 0 && c.registrationFee == 0
    ensures c.total == price + c.acquisitionTax
  {
    var tax := AcquisitionTax(price, isEv, isHybrid, companyLease);
    var bond := BondCost(price, region);
    var registration := 0;
    AcquisitionCost(tax, bond, registration, price + tax + bond + registration)
  }

  /** _calculate_annual_car_tax: a flat 130,000 for electric vehicles, else 1.32% of the price, truncated. */
  function AnnualCarTax(price: int, isEv: bool, isHybrid: bool): (t: int)
    ensures isEv ==> t == 130000
    ensures !isEv && price >= 0 ==> t as real <= price as real * 0.0132 < t as real + 1.0
  {
    if isEv then 130000 else Trunc(price as real * 0.0132)
  }

  /**
   * -numpy_financial.pmt(r, n, pv, -fv) for payments at the end of each
   * period: the level payment that amortizes pv down to a final balance fv.
   */
  function Pmt(r: real, n: nat, pv: real, fv: real): real
    requires n >= 1 && r > -1.0
  {
    if r == 0.0 then (pv - fv) / n as real
    else
      PowNotOne(r, n);
      PmtFormula(pv, fv, r, Pow(1.0 + r, n))
  }

  /** numpy_financial's closed form (pv g - fv) r / (g - 1) with growth factor g = (1 + r)^n. */
  function PmtFormula(pv: real, fv: real, r: real, g: real): real
    requires g != 1.0
  {
    (pv * g - fv) * r / (g - 1.0)
  }

  /** (1 + r)^n differs from 1 for a non-zero rate above -1 and a term of at least one period. */
  lemma PowNotOne(r: real, n: nat)
    requires n >= 1 && r > -1.0 && r != 0.0
    ensures Pow(1.0 + r, n) != 1.0
  {
    if r > 0.0 {
      PowAboveOne(1.0 + r, n);
    } else {
      PowBelowOne(1.0 + r, n);
    }
  }

  /** A base strictly between 0 and 1 has a power below 1, for n >= 1. */
  lemma {:induction false} PowBelowOne(x: real, n: nat)
    requires 0.0 < x < 1.0 && n >= 1
    ensures 0.0 < Pow(x, n) < 1.0
  {
    if n > 1 {
      PowBelowOne(x, n - 1);
      assert Pow(x, n) == x * Pow(x, n - 1);
    }
  }

  /**
   * At a positive rate the PMT payment is the balloon payment of the annuity
   * calculator, (pv - fv v) r / (1 - v) with v = (1 + r)^-n, so it repays pv
   * exactly down to the balloon fv.
   */
  lemma PmtIsBalloon(r: real, n: nat, pv: real, fv: real)
    requires n >= 1 && r > 0.0
    ensures Pmt(r, n, pv, fv) == BalloonPayment(pv, fv, r, n)
    ensures PresentValue(Pmt(r, n, pv, fv), fv, r, n) == pv
  {
    PowAboveOne(1.0 + r, n);
    PmtAlgebra(pv, fv, r, Pow(1.0 + r, n), Discount(r, n));
    BalloonRepays(pv, fv, r, n, Pmt(r, n, pv, fv));
  }

  /** Algebra: (pv g - fv) r / (g - 1) == (pv - fv v) r / (1 - v) when v g == 1 and g > 1. */
  lemma PmtAlgebra(pv: real, fv: real, r: real, g: real, v: real)
    requires g > 1.0 && v * g == 1.0
    ensures PmtFormula(pv, fv, r, g) == BalloonFormula(pv, fv, r, v)
  {
    assert v > 0.0;
    ScaleFraction(pv * g - fv, g - 1.0, v, r);
    assert (pv * g - fv) * v == pv * (g * v) - fv * v;
    assert (g - 1.0) * v == g * v - v;
  }

  /** Algebra: multiplying numerator and denominator by the same positive factor. */
  lemma ScaleFraction(a: real, b: real, v: real, r: real)
    requires b > 0.0 && v > 0.0
    ensures a * r / b == (a * v) * r / (b * v)
  {
    assert (a * v) * r / (b * v) == (a * r * v) / (b * v);
  }

  /** At a zero rate the payment is the depreciation spread evenly over the term. */
  lemma PmtZeroRate(n: nat, pv: real, fv: real)
    requires n >= 1
    ensures Pmt(0.0, n, pv, fv) * n as real == pv - fv
  {
  }

  /** Python's int(x) // 100 * 100: truncate to whole won, then floor to a multiple of 100. */
  function FloorToHundred(x: real): (m: int)
    ensures m % 100 == 0
    ensures x >= 0.0 ==> 0.0 <= m as real <= x < m as real + 100.0
  {
    (Trunc(x) / 100) * 100
  }

  /** amount × rate, kept as one term. */
  function Portion(amount: int, rate: real): real {
    amount as real * rate
  }

  /** The result dictionary of MGLeaseCalculator.calculate (the breakdown echoes the inputs). */
  datatype MgQuote = MgQuote(
    monthlyPayment: int,
    downPayment: int,
    totalPayment: int,
    residualValue: int,
    netVehicleCost: int,
    acquisitionCost: int,
    financedAmount: int,
    monthlyCarTax: int,
    annualCarTax: int,
    acquisitionTax: int,
    bondCost: int,
    registrationFee: int)

  /**
   * MGLeaseCalculator.calculate. The mileage only travels into the breakdown;
   * the region only reaches the bond cost, which is 0.
   */
  function Calculate(price: int, residualRate: real, months: nat, annualMileage: int, annualRate: real,
                     downPaymentRate: real, region: string, isEv: bool, isHybrid: bool, companyLease: bool): (q: MgQuote)
    requires months >= 1 && annualRate / 12.0 > -1.0
    ensures q == QuoteFrom(price, CalculateAcquisitionCost(price, region, isEv, isHybrid, companyLease),
                           residualRate, months, annualRate, downPaymentRate, AnnualCarTax(price, isEv, isHybrid))
    ensures q.acquisitionTax == AcquisitionTax(price, isEv, isHybrid, companyLease)
    ensures q.acquisitionCost == price + q.acquisitionTax
    ensures q.annualCarTax == AnnualCarTax(price, isEv, isHybrid)
    ensures q.bondCost == 0 && q.registrationFee == 0
  {
    var c := CalculateAcquisitionCost(price, region, isEv, isHybrid, companyLease);
    QuoteFrom(price, c, residualRate, months, annualRate, downPaymentRate, AnnualCarTax(price, isEv, isHybrid))
  }

  /** The payment schedule of calculate, given the acquisition cost and the yearly car tax. */
  function QuoteFrom(price: int, c: AcquisitionCost, residualRate: real, months: nat, annualRate: real,
                     downPaymentRate: real, annualTax: int): (q: MgQuote)
    requires months >= 1 && annualRate / 12.0 > -1.0
    ensures q.acquisitionCost == c.total && q.acquisitionTax == c.acquisitionTax
    ensures q.bondCost == c.bondCost && q.registrationFee == c.registrationFee
    ensures q.downPayment == Trunc(Portion(c.total, downPaymentRate))
    ensures q.financedAmount + q.downPayment == q.acquisitionCost
    ensures q.residualValue == Trunc(Portion(price, residualRate))
    ensures q.monthlyPayment == FloorToHundred(Pmt(annualRate / 12.0, months, q.financedAmount as real, q.residualValue as real))
    ensures q.monthlyPayment % 100 == 0
    ensures q.totalPayment == q.downPayment + q.monthlyPayment * months
    ensures q.netVehicleCost == q.totalPayment - q.residualValue
    ensures q.annualCarTax == annualTax && q.monthlyCarTax == Trunc(annualTax as real / 12.0)
  {
    var down := Trunc(Portion(c.total, downPaymentRate));
    var financed := c.total - down;
    var residual := Trunc(Portion(price, residualRate));
    var monthly := FloorToHundred(Pmt(annualRate / 12.0, months, financed as real, residual as real));
    var total := down + monthly * months;
    MgQuote(monthly, down, total, residual, total - residual, c.total, financed,
            Trunc(annualTax as real / 12.0), annualTax, c.acquisitionTax, c.bondCost, c.registrationFee)
  }

  /**
   * Whenever the PMT payment is non-negative, the quoted payment undercuts it
   * by less than 100 won, so the lifetime total falls short of the exact
   * amortization by less than 100 won a month.
   */
  lemma QuoteBelowExactPayment(price: int, residualRate: real, months: nat, annualMileage: int, annualRate: real,
                               downPaymentRate: real, region: string, isEv: bool, isHybrid: bool, companyLease: bool)
    requires months >= 1 && annualRate / 12.0 > -1.0
    ensures var q := Calculate(price, residualRate, months, annualMileage, annualRate, downPaymentRate, region, isEv, isHybrid, companyLease);
      var exact := Pmt(annualRate / 12.0, months, q.financedAmount as real, q.residualValue as real);
      exact >= 0.0 ==>
        && q.monthlyPayment as real <= exact < q.monthlyPayment as real + 100.0
        && q.totalPayment as real <= q.downPayment as real + exact * months as real
  {
    var q := Calculate(price, residualRate, months, annualMileage, annualRate, downPaymentRate, region, isEv, isHybrid, companyLease);
    var exact := Pmt(annualRate / 12.0, months, q.financedAmount as real, q.residualValue as real);
    if exact >= 0.0 {
      var m := q.monthlyPayment as real;
      var n := months as real;
      assert m <= exact;
      assert (q.monthlyPayment * months) as real == m * n;
      assert m * n <= exact * n;
    }
  }

  /** An electric vehicle pays 130,000 a year, 10,833 a month after truncation. */
  lemma ElectricCarTax(price: int, isHybrid: bool)
    ensures AnnualCarTax(price, true, isHybrid) == 130000
    ensures Trunc(AnnualCarTax(price, true, isHybrid) as real / 12.0) == 10833
  {
  }
}
