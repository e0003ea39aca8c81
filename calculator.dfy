/**
 * The general lease calculator: straight-line (average-balance) and annuity
 * modes, flat monthly tax and fee lines, lifetime totals, one rounding to
 * 1000 won at emission, and the bracketed vehicle-tax and acquisition-tax
 * policies.
 */
module Calculator {
  import opened Wrappers
  import opened Numeric

  /** The two amortization modes; every method name other than "annuity" is straight-line. */
  datatype Method = Simple | Annuity

  function MethodOf(name: string): (m: Method)
    ensures m == Annuity <==> name == "annuity"
  {
    if name == "annuity" then Annuity else Simple
  }

  /** The arguments of calculate_operating_lease. */
  datatype LeaseInput = LeaseInput(
    vehiclePrice: real,
    months: int,
    downPayment: real,
    residualRate: real,
    annualRate: real,
    acquisitionTaxRate: real,
    registrationFee: real,
    annualCarTax: real,
    mode: Method,
    acquisitionCost: Option<real>)

  /** The call with every defaulted argument left at its default. */
  function DefaultInput(price: real, months: int, down: real, residualRate: real, annualRate: real): (i: LeaseInput)
    ensures i.acquisitionTaxRate == 0.0 && i.registrationFee == 200000.0 && i.annualCarTax == 0.0
    ensures i.mode == Simple && i.acquisitionCost == None
    ensures i.vehiclePrice == price && i.months == months && i.downPayment == down
    ensures i.residualRate == residualRate && i.annualRate == annualRate
  {
    LeaseInput(price, months, down, residualRate, annualRate, 0.0, 200000.0, 0.0, Simple, None)
  }

  /**
   * What the source can evaluate without dividing by zero: a term of at least
   * one month, and in annuity mode a rate the resolver can produce (never negative).
   */
  predicate Computable(i: LeaseInput) {
    i.months >= 1 && (i.mode == Annuity ==> i.annualRate >= 0.0)
  }

  /** An acquisition cost counts only when it is given and non-zero (Python truthiness). */
  predicate HasAcquisitionCost(i: LeaseInput) {
    i.acquisitionCost.Some? && i.acquisitionCost.value != 0.0
  }

  /** Financed amount and residual value of the two financing bases. */
  datatype Basis = Basis(financed: real, residualValue: real)

  /**
   * The financing basis. With an acquisition cost, the cost is financed but
   * the residual value is a fraction of the vehicle price; without one, the
   * price is financed and the residual is a fraction of the financed amount.
   */
  function FinancingBasis(i: LeaseInput): (b: Basis)
    ensures b.financed + i.downPayment == (if HasAcquisitionCost(i) then i.acquisitionCost.value else i.vehiclePrice)
    ensures HasAcquisitionCost(i) ==> b.residualValue == i.vehiclePrice * i.residualRate
    ensures !HasAcquisitionCost(i) ==> b.residualValue == b.financed * i.residualRate
  {
    if HasAcquisitionCost(i) then
      Basis(i.acquisitionCost.value - i.downPayment, i.vehiclePrice * i.residualRate)
    else
      var financed := i.vehiclePrice - i.downPayment;
      Basis(financed, financed * i.residualRate)
  }

  /** Every intermediate of calculate_operating_lease, before any rounding. */
  datatype Breakdown = Breakdown(
    financed: real,
    residualValue: real,
    monthlyBase: real,
    monthlyDepreciation: real,
    monthlyFinance: real,
    monthlyTax: real,
    monthlyRegistration: real,
    monthlyCarTax: real,
    monthlyTotal: real,
    totalPayment: real,
    totalInterest: real,
    effectiveCost: real)

  /** The annuity factor r / (1 - (1 + r)^-n) for a positive monthly rate. */
  function AnnuityFactor(r: real, n: nat): (a: real)
    requires r > 0.0 && n >= 1
    ensures a > r
  {
    FactorOf(r, Discount(r, n))
  }

  /** r / (1 - v): the payment per unit repaid over a discount factor v below 1. */
  function FactorOf(r: real, v: real): (a: real)
    requires r > 0.0 && 0.0 < v < 1.0
    ensures a > r
  {
    assert r / (1.0 - v) * (1.0 - v) == r;
    r / (1.0 - v)
  }

  /** The monthly base payment (depreciation plus finance) of the chosen mode. */
  function MonthlyBase(m: Method, financed: real, residual: real, r: real, n: nat): real
    requires n >= 1 && (m == Annuity ==> r >= 0.0)
  {
    var depreciation := financed - residual;
    match m
    case Annuity =>
      var payment := if r == 0.0 then depreciation / n as real else depreciation * AnnuityFactor(r, n);
      payment + residual * r
    case Simple =>
      depreciation / n as real + (financed + residual) / 2.0 * r
  }

  function Unrounded(i: LeaseInput): (b: Breakdown)
    requires Computable(i)
    ensures b.financed == FinancingBasis(i).financed && b.residualValue == FinancingBasis(i).residualValue
    ensures b.monthlyTotal == b.monthlyBase + b.monthlyTax + b.monthlyRegistration + b.monthlyCarTax
    ensures b.monthlyDepreciation * i.months as real == b.financed - b.residualValue
  {
    var basis := FinancingBasis(i);
    var n := i.months;
    var r := i.annualRate / 12.0;
    var base := MonthlyBase(i.mode, basis.financed, basis.residualValue, r, n);
    var depreciation := (basis.financed - basis.residualValue) / n as real;
    var finance := if i.mode == Annuity then base - depreciation else (basis.financed + basis.residualValue) / 2.0 * r;
    var tax := i.vehiclePrice * i.acquisitionTaxRate / n as real;
    var registration := i.registrationFee / n as real;
    var carTax := i.annualCarTax / 12.0;
    var total := base + tax + registration + carTax;
    var totalPayment := total * n as real + i.downPayment;
    Breakdown(basis.financed, basis.residualValue, base, depreciation, finance, tax, registration, carTax,
              total, totalPayment, finance * n as real, totalPayment - basis.residualValue)
  }

  /** The dictionary calculate_operating_lease returns: money in whole won, rates as given. */
  datatype LeaseQuote = LeaseQuote(
    monthlyTotal: int,
    monthlyBase: int,
    monthlyDepreciation: int,
    monthlyFinance: int,
    monthlyTax: int,
    monthlyRegistration: int,
    monthlyCarTax: int,
    appliedRate: real,
    residualValue: int,
    residualRate: real,
    totalPayment: int,
    totalInterest: int,
    effectiveVehicleCost: int)

  /** True when q rounds every amount of b exactly once to 1000 won. */
  predicate RoundedOnce(q: LeaseQuote, b: Breakdown) {
    && q.monthlyTotal == Round1000(b.monthlyTotal)
    && q.monthlyBase == Round1000(b.monthlyBase)
    && q.monthlyDepreciation == Round1000(b.monthlyDepreciation)
    && q.monthlyFinance == Round1000(b.monthlyFinance)
    && q.monthlyTax == Round1000(b.monthlyTax)
    && q.monthlyRegistration == Round1000(b.monthlyRegistration)
    && q.monthlyCarTax == Round1000(b.monthlyCarTax)
    && q.residualValue == Round1000(b.residualValue)
    && q.totalPayment == Round1000(b.totalPayment)
    && q.totalInterest == Round1000(b.totalInterest)
    && q.effectiveVehicleCost == Round1000(b.effectiveCost)
  }

  /** calculate_operating_lease: every money output is one rounding of an unrounded quantity. */
  function CalculateOperatingLease(i: LeaseInput): (q: LeaseQuote)
    requires Computable(i)
    ensures RoundedOnce(q, Unrounded(i))
    ensures q.appliedRate == i.annualRate && q.residualRate == i.residualRate
    ensures q.monthlyTotal % 1000 == 0 && q.totalPayment % 1000 == 0
    ensures Unrounded(i).monthlyTotal - 500.0 < q.monthlyTotal as real <= Unrounded(i).monthlyTotal + 500.0
  {
    var b := Unrounded(i);
    LeaseQuote(
      Round1000(b.monthlyTotal), Round1000(b.monthlyBase), Round1000(b.monthlyDepreciation),
      Round1000(b.monthlyFinance), Round1000(b.monthlyTax), Round1000(b.monthlyRegistration),
      Round1000(b.monthlyCarTax), i.annualRate, Round1000(b.residualValue), i.residualRate,
      Round1000(b.totalPayment), Round1000(b.totalInterest), Round1000(b.effectiveCost))
  }

  /** Straight-line mode: even depreciation plus an average-balance finance charge. */
  lemma SimpleMode(i: LeaseInput)
    requires Computable(i) && i.mode == Simple
    ensures var b := Unrounded(i);
      && b.monthlyFinance == (b.financed + b.residualValue) / 2.0 * (i.annualRate / 12.0)
      && b.monthlyBase == b.monthlyDepreciation + b.monthlyFinance
  {
    var basis := FinancingBasis(i);
    var p, f := basis.financed, basis.residualValue;
    var r := i.annualRate / 12.0;
    assert MonthlyBase(Simple, p, f, r, i.months) == (p - f) / i.months as real + (p + f) / 2.0 * r;
  }

  /** Annuity mode at a zero rate: the payment is depreciation over the term, with no finance charge. */
  lemma AnnuityZeroRate(i: LeaseInput)
    requires Computable(i) && i.mode == Annuity && i.annualRate == 0.0
    ensures var b := Unrounded(i);
      && b.monthlyBase * i.months as real == b.financed - b.residualValue
      && b.monthlyFinance == 0.0
  {
  }

  /**
   * Annuity mode at a positive rate: the base payment is the balloon payment
   * that repays the financed amount down to the residual value, and the
   * finance line is what it carries above even depreciation.
   */
  lemma AnnuityPresentValue(i: LeaseInput)
    requires Computable(i) && i.mode == Annuity && i.annualRate > 0.0
    ensures var b := Unrounded(i);
      var r := i.annualRate / 12.0;
      && b.monthlyBase == BalloonPayment(b.financed, b.residualValue, r, i.months)
      && PresentValue(b.monthlyBase, b.residualValue, r, i.months) == b.financed
      && b.monthlyFinance == b.monthlyBase - b.monthlyDepreciation
  {
    var b := Unrounded(i);
    var r := i.annualRate / 12.0;
    var n: nat := i.months;
    var p, f := b.financed, b.residualValue;
    assert b.monthlyBase == MonthlyBase(Annuity, p, f, r, n);
    AnnuityBalloon(p, f, r, n);
    BalloonRepays(p, f, r, n, b.monthlyBase);
  }

  /** The annuity base payment at a positive rate: depreciation annuity plus interest on the residual is the balloon payment. */
  lemma AnnuityBalloon(p: real, f: real, r: real, n: nat)
    requires r > 0.0 && n >= 1
    ensures MonthlyBase(Annuity, p, f, r, n) == BalloonPayment(p, f, r, n)
  {
    BalloonForm(p, f, r, Discount(r, n));
  }

  /** Algebra: D r/(1-v) + F r == (P - F v) r/(1-v) with D = P - F. */
  lemma BalloonForm(p: real, f: real, r: real, v: real)
    requires r > 0.0 && 0.0 < v < 1.0
    ensures (p - f) * FactorOf(r, v) + f * r == BalloonFormula(p, f, r, v)
  {
    var d := 1.0 - v;
    assert f * r == f * r * d / d;
    assert (p - f) * (r / d) == (p - f) * r / d;
    assert (p - f) * r + f * r * d == (p - f * v) * r;
  }

  /**
   * In straight-line mode, with everything but the term fixed and no negative
   * finance charge or vehicle tax, a longer term never lowers the unrounded
   * total payment: the lifetime depreciation, tax and registration lines are
   * fixed, while finance and vehicle tax accrue per month.
   */
  lemma SimpleTotalGrowsWithTerm(i: LeaseInput, longer: int)
    requires Computable(i) && i.mode == Simple && longer >= i.months
    requires (FinancingBasis(i).financed + FinancingBasis(i).residualValue) * i.annualRate >= 0.0
    requires i.annualCarTax >= 0.0
    ensures Computable(i.(months := longer))
    ensures Unrounded(i).totalPayment <= Unrounded(i.(months := longer)).totalPayment
  {
    var j := i.(months := longer);
    assert Computable(j);
    LifetimeSimple(i);
    LifetimeSimple(j);
    TermFreeLines(i, j);
    var fixed, accrual := SimpleFixed(i), SimpleAccrual(i);
    AccrualMonotone(fixed, accrual, i.months as real, longer as real,
                    Unrounded(i).totalPayment, Unrounded(j).totalPayment);
  }

  /** Two inputs that differ at most in the term share the term-free lines, and a non-negative accrual. */
  lemma TermFreeLines(i: LeaseInput, j: LeaseInput)
    requires j == i.(months := j.months)
    requires (FinancingBasis(i).financed + FinancingBasis(i).residualValue) * i.annualRate >= 0.0
    requires i.annualCarTax >= 0.0
    ensures SimpleFixed(j) == SimpleFixed(i) && SimpleAccrual(j) == SimpleAccrual(i)
    ensures SimpleAccrual(i) >= 0.0
  {
    assert FinancingBasis(j) == FinancingBasis(i);
    var basis := FinancingBasis(i);
    var s := basis.financed + basis.residualValue;
    assert s / 2.0 * (i.annualRate / 12.0) == s * i.annualRate / 24.0;
    assert SimpleAccrual(i) == s * i.annualRate / 24.0 + i.annualCarTax / 12.0;
  }

  /** The straight-line lines that do not depend on the term: depreciation, tax, registration, down payment. */
  function SimpleFixed(i: LeaseInput): real {
    var basis := FinancingBasis(i);
    basis.financed - basis.residualValue + i.vehiclePrice * i.acquisitionTaxRate + i.registrationFee + i.downPayment
  }

  /** The straight-line lines that accrue per month: average-balance finance charge and vehicle tax. */
  function SimpleAccrual(i: LeaseInput): real {
    var basis := FinancingBasis(i);
    (basis.financed + basis.residualValue) / 2.0 * (i.annualRate / 12.0) + i.annualCarTax / 12.0
  }

  /** The straight-line lifetime total: fixed lines plus per-month accruals times the term. */
  lemma LifetimeSimple(i: LeaseInput)
    requires Computable(i) && i.mode == Simple
    ensures Unrounded(i).totalPayment == SimpleFixed(i) + SimpleAccrual(i) * i.months as real
  {
    var basis := FinancingBasis(i);
    var p, f := basis.financed, basis.residualValue;
    var tax, reg, car, down := i.vehiclePrice * i.acquisitionTaxRate, i.registrationFee, i.annualCarTax, i.downPayment;
    var r := i.annualRate / 12.0;
    var n := i.months as real;
    SimpleTotalLines(i);
    SpreadOverTerm(p - f, (p + f) / 2.0 * r, car / 12.0, tax, reg, down, n);
  }

  /** The unrounded straight-line total, line by line. */
  lemma SimpleTotalLines(i: LeaseInput)
    requires Computable(i) && i.mode == Simple
    ensures var basis := FinancingBasis(i);
      var p, f := basis.financed, basis.residualValue;
      var n := i.months as real;
      Unrounded(i).totalPayment ==
        ((p - f) / n + (p + f) / 2.0 * (i.annualRate / 12.0) + i.vehiclePrice * i.acquisitionTaxRate / n
         + i.registrationFee / n + i.annualCarTax / 12.0) * n + i.downPayment
  {
  }

  /** Algebra: lines spread over n months and then multiplied back by n are the lines themselves. */
  lemma SpreadOverTerm(d: real, fin: real, car: real, tax: real, reg: real, down: real, n: real)
    requires n > 0.0
    ensures (d / n + fin + tax / n + reg / n + car) * n + down == d + tax + reg + down + (fin + car) * n
  {
    assert (d / n) * n == d && (tax / n) * n == tax && (reg / n) * n == reg;
  }

  /** A fixed amount plus a non-negative monthly accrual over more months is no smaller. */
  lemma AccrualMonotone(fixed: real, k: real, a: real, b: real, ta: real, tb: real)
    requires k >= 0.0 && a <= b
    requires ta == fixed + k * a && tb == fixed + k * b
    ensures ta <= tb
  {
    assert k * b - k * a == k * (b - a);
  }


  /** The worked example: 50,000,000 won, 36 months, residual 0.5, 6% a year. */
  lemma WorkedExample()
    ensures var b := Unrounded(LeaseInput(50000000.0, 36, 0.0, 0.5, 0.06, 0.0, 200000.0, 400000.0, Simple, None));
      && b.monthlyFinance == 187500.0
      && b.monthlyDepreciation == 25000000.0 / 36.0
      && b.monthlyCarTax == 400000.0 / 12.0
  {
  }

  // ----- vehicle tax (calculate_auto_tax) -----

  /** The yearly tax of a private vehicle: flat for electric (0 cc), else four bands. */
  function BaseAutoTax(engineCc: int): real {
    if engineCc == 0 then 100000.0
    else if engineCc <= 1000 then engineCc as real * 80.0
    else if engineCc <= 1600 then 80000.0 + (engineCc - 1000) as real * 140.0 / 600.0
    else if engineCc <= 2000 then 164000.0 + (engineCc - 1600) as real * 200.0 / 400.0
    else 364000.0 + (engineCc - 2000) as real * 220.0 / 1000.0
  }

  /** calculate_auto_tax: commercial registration halves the tax in every branch. */
  function AutoTax(engineCc: int, isCommercial: bool): (t: real)
    ensures isCommercial ==> t * 2.0 == BaseAutoTax(engineCc)
    ensures !isCommercial ==> t == BaseAutoTax(engineCc)
  {
    var base := BaseAutoTax(engineCc);
    if isCommercial then base * 0.5 else base
  }

  /** Electric vehicles pay 100,000 privately and exactly half, 50,000, when commercial. */
  lemma AutoTaxElectric()
    ensures AutoTax(0, false) == 100000.0 && AutoTax(0, true) == 50000.0
  {
  }

  /** For positive displacements the tax never decreases as displacement grows. */
  lemma AutoTaxMonotone(a: int, b: int, commercial: bool)
    requires 1 <= a <= b
    ensures 0.0 < AutoTax(a, commercial) <= AutoTax(b, commercial)
  {
  }

  // ----- acquisition tax -----

  /** The value of the vehicle without value-added tax. */
  function SupplyPrice(price: real): real { price / 1.1 }

  /**
   * calculate_acquisition_tax: commercial vehicles are exempt; electric
   * vehicles have up to 1,400,000 of the 7% tax waived; others pay 7% of the
   * supply price.
   */
  function AcquisitionTax(price: real, vehicleType: string): (t: real)
    ensures vehicleType == "commercial" ==> t == 0.0
    ensures vehicleType == "electric" ==>
      t == (if SupplyPrice(price) * 0.07 > 1400000.0 then SupplyPrice(price) * 0.07 - 1400000.0 else 0.0)
    ensures vehicleType != "commercial" && vehicleType != "electric" ==> t == SupplyPrice(price) * 0.07
    ensures vehicleType == "electric" || vehicleType == "commercial" ==> t >= 0.0
  {
    var supply := SupplyPrice(price);
    if vehicleType == "commercial" then 0.0
    else if vehicleType == "electric" then
      var tax := supply * 0.07;
      var reduction := if tax < 1400000.0 then tax else 1400000.0;
      if tax - reduction > 0.0 then tax - reduction else 0.0
    else supply * 0.07
  }

  /**
   * For a non-negative price: commercial pays nothing, electric pays no more
   * than any other type and at most 1,400,000 less, and nothing is negative.
   */
  lemma AcquisitionTaxOrder(price: real, other: string)
    requires price >= 0.0 && other != "commercial" && other != "electric"
    ensures 0.0 == AcquisitionTax(price, "commercial") <= AcquisitionTax(price, "electric") <= AcquisitionTax(price, other)
    ensures AcquisitionTax(price, other) - AcquisitionTax(price, "electric") <= 1400000.0
  {
  }

  /** The dictionary calculate_total_acquisition_cost returns. */
  datatype AcquisitionCost = AcquisitionCost(
    vehiclePrice: real,
    acquisitionTax: int,
    registrationFee: real,
    publicBond: real,
    deliveryFee: real,
    otherFees: real,
    totalAcquisitionCost: int)

  /**
   * calculate_total_acquisition_cost: the total is one rounding of the sum of
   * the six components with the unrounded tax, not a sum of rounded parts.
   */
  function TotalAcquisitionCost(price: real, vehicleType: string, registrationFee: real,
                                publicBond: real, deliveryFee: real, otherFees: real): (c: AcquisitionCost)
    ensures c.acquisitionTax == Round1000(AcquisitionTax(price, vehicleType))
    ensures c.totalAcquisitionCost ==
      Round1000(price + AcquisitionTax(price, vehicleType) + registrationFee + publicBond + deliveryFee + otherFees)
    ensures c.vehiclePrice == price && c.registrationFee == registrationFee && c.publicBond == publicBond
    ensures c.deliveryFee == deliveryFee && c.otherFees == otherFees
  {
    var tax := AcquisitionTax(price, vehicleType);
    AcquisitionCost(price, Round1000(tax), registrationFee, publicBond, deliveryFee, otherFees,
                    Round1000(price + tax + registrationFee + publicBond + deliveryFee + otherFees))
  }
}
