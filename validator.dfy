/**
 * Input validation for a lease quote and for a comparison request. Every
 * check either records an error, which makes the whole input rejected, or
 * records a warning, which is reported but accepted; the rejected outcome
 * carries every error message joined by "; " in check order.
 */
module Validator {
  import opened Wrappers
  import opened Text
  import opened Numeric
  import ResidualRates
  import JsonData
  import Dicts

  /** {"valid": True, "warnings": ...}, or ValidationError(message) raised. */
  datatype Outcome = Accepted(warnings: seq<Issue>) | Rejected(message: string)

  /** The findings of the checks; IssueText gives each one's message. */
  datatype Issue =
    | PriceNotPositive
    | PriceLow
    | PriceHigh
    | TermInvalid
    | DownNegative
    | DownAbovePrice
    | DownAboveHalf
    | ResidualOutOfRange
    | ResidualLow
    | ResidualHigh
    | MileageUnusual
    | NoVehicle
    | ManyVehicles
    | NoCapital

  function IssueText(i: Issue): string {
    match i
    case PriceNotPositive => "차량 가격은 0보다 커야 합니다"
    case PriceLow => "차량 가격이 1천만원 미만입니다. 확인해주세요"
    case PriceHigh => "차량 가격이 5억원을 초과합니다. 확인해주세요"
    case TermInvalid => "계약 기간은 [24, 36, 48, 60] 중 하나여야 합니다"
    case DownNegative => "선납금은 음수일 수 없습니다"
    case DownAbovePrice => "선납금이 차량 가격을 초과할 수 없습니다"
    case DownAboveHalf => "선납금이 차량 가격의 50%를 초과합니다"
    case ResidualOutOfRange => "잔존율은 0~1 사이여야 합니다"
    case ResidualLow => "잔존율이 10% 미만입니다. 확인해주세요"
    case ResidualHigh => "잔존율이 80%를 초과합니다. 확인해주세요"
    case MileageUnusual => "일반적인 주행거리는 [10000, 15000, 20000, 30000]km입니다"
    case NoVehicle => "최소 1대 이상의 차량을 선택해야 합니다"
    case ManyVehicles => "5대 이상의 차량을 비교하면 가독성이 떨어질 수 있습니다"
    case NoCapital => "최소 1개 이상의 캐피탈을 선택해야 합니다"
  }

  function Texts(issues: seq<Issue>): (r: seq<string>)
    ensures |r| == |issues|
    ensures forall k :: 0 <= k < |issues| ==> r[k] == IssueText(issues[k])
  {
    if |issues| == 0 then [] else [IssueText(issues[0])] + Texts(issues[1..])
  }


  predicate ValidTerm(months: int) {
    months == 24 || months == 36 || months == 48 || months == 60
  }

  predicate CommonMileage(mileage: int) {
    mileage == 10000 || mileage == 15000 || mileage == 20000 || mileage == 30000
  }

  function If(c: bool, msg: Issue): seq<Issue> {
    if c then [msg] else []
  }

  function PriceErrors(price: real): (r: seq<Issue>)
    ensures forall i :: i in r ==> i == PriceNotPositive
  {
    If(price <= 0.0, PriceNotPositive)
  }

  function PriceWarnings(price: real): (r: seq<Issue>)
    ensures forall i :: i in r ==> i == PriceLow || i == PriceHigh
  {
    if price <= 0.0 then [] else if price < 10_000_000.0 then [PriceLow] else If(price > 500_000_000.0, PriceHigh)
  }

  function DownErrors(price: real, down: real): (r: seq<Issue>)
    ensures forall i :: i in r ==> i == DownNegative || i == DownAbovePrice
  {
    if down < 0.0 then [DownNegative] else If(down > price, DownAbovePrice)
  }

  function DownWarnings(price: real, down: real): (r: seq<Issue>)
    ensures forall i :: i in r ==> i == DownAboveHalf
  {
    if down < 0.0 || down > price then [] else If(down > price * 0.5, DownAboveHalf)
  }

  function ResidualErrors(residual: Option<real>): (r: seq<Issue>)
    ensures forall i :: i in r ==> i == ResidualOutOfRange
  {
    match residual
    case None => []
    case Some(rr) => If(rr < 0.0 || rr > 1.0, ResidualOutOfRange)
  }

  function ResidualWarnings(residual: Option<real>): (r: seq<Issue>)
    ensures forall i :: i in r ==> i == ResidualLow || i == ResidualHigh
  {
    match residual
    case None => []
    case Some(rr) => if rr < 0.0 || rr > 1.0 then [] else if rr < 0.1 then [ResidualLow] else If(rr > 0.8, ResidualHigh)
  }

  function MileageWarnings(mileage: Option<int>): (r: seq<Issue>)
    ensures forall i :: i in r ==> i == MileageUnusual
  {
    match mileage
    case None => []
    case Some(m) => If(!CommonMileage(m), MileageUnusual)
  }

  /** The error messages of a lease input, in check order. */
  function LeaseErrors(price: real, months: int, down: real, residual: Option<real>): seq<Issue> {
    PriceErrors(price) + If(!ValidTerm(months), TermInvalid) + DownErrors(price, down) + ResidualErrors(residual)
  }

  /** The warning messages of a lease input, in check order. */
  function LeaseWarnings(price: real, down: real, residual: Option<real>, mileage: Option<int>): seq<Issue> {
    PriceWarnings(price) + DownWarnings(price, down) + ResidualWarnings(residual) + MileageWarnings(mileage)
  }

  function Decide(errors: seq<Issue>, warnings: seq<Issue>): Outcome {
    if |errors| > 0 then Rejected(Join(Texts(errors), "; ")) else Accepted(warnings)
  }

  function LeaseOutcome(price: real, months: int, down: real, residual: Option<real>, mileage: Option<int>): Outcome {
    Decide(LeaseErrors(price, months, down, residual), LeaseWarnings(price, down, residual, mileage))
  }

  /** validate_lease_input: each check appends to the error or the warning list, then the lists decide. */
  method ValidateLeaseInput(price: real, months: int, down: real, residual: Option<real>, mileage: Option<int>)
    returns (r: Outcome)
    ensures r == LeaseOutcome(price, months, down, residual, mileage)
  {
    var errors: seq<Issue> := [];
    var warnings: seq<Issue> := [];
    errors, warnings := CheckPrice(price, errors, warnings);
    assert errors == PriceErrors(price) && warnings == PriceWarnings(price);
    if !ValidTerm(months) {
      errors := errors + [TermInvalid];
    }
    assert errors == PriceErrors(price) + If(!ValidTerm(months), TermInvalid);
    errors, warnings := CheckDownPayment(price, down, errors, warnings);
    errors, warnings := CheckResidual(residual, errors, warnings);
    warnings := CheckMileage(mileage, warnings);
    assert errors == LeaseErrors(price, months, down, residual);
    assert warnings == LeaseWarnings(price, down, residual, mileage);
    if |errors| > 0 {
      r := Rejected(Join(Texts(errors), "; "));
    } else {
      r := Accepted(warnings);
    }
  }

  method CheckPrice(price: real, errors: seq<Issue>, warnings: seq<Issue>) returns (errors': seq<Issue>, warnings': seq<Issue>)
    ensures errors' == errors + PriceErrors(price) && warnings' == warnings + PriceWarnings(price)
  {
    errors', warnings' := errors, warnings;
    if price <= 0.0 {
      errors' := errors' + [PriceNotPositive];
    } else if price < 10_000_000.0 {
      warnings' := warnings' + [PriceLow];
    } else if price > 500_000_000.0 {
      warnings' := warnings' + [PriceHigh];
    }
  }

  method CheckDownPayment(price: real, down: real, errors: seq<Issue>, warnings: seq<Issue>)
    returns (errors': seq<Issue>, warnings': seq<Issue>)
    ensures errors' == errors + DownErrors(price, down) && warnings' == warnings + DownWarnings(price, down)
  {
    errors', warnings' := errors, warnings;
    if down < 0.0 {
      errors' := errors' + [DownNegative];
    } else if down > price {
      errors' := errors' + [DownAbovePrice];
    } else if down > price * 0.5 {
      warnings' := warnings' + [DownAboveHalf];
    }
  }

  method CheckResidual(residual: Option<real>, errors: seq<Issue>, warnings: seq<Issue>)
    returns (errors': seq<Issue>, warnings': seq<Issue>)
    ensures errors' == errors + ResidualErrors(residual) && warnings' == warnings + ResidualWarnings(residual)
  {
    errors', warnings' := errors, warnings;
    if residual.Some? {
      var rr := residual.value;
      if rr < 0.0 || rr > 1.0 {
        errors' := errors' + [ResidualOutOfRange];
      } else if rr < 0.1 {
        warnings' := warnings' + [ResidualLow];
      } else if rr > 0.8 {
        warnings' := warnings' + [ResidualHigh];
      }
    }
  }

  method CheckMileage(mileage: Option<int>, warnings: seq<Issue>) returns (warnings': seq<Issue>)
    ensures warnings' == warnings + MileageWarnings(mileage)
  {
    warnings' := warnings;
    if mileage.Some? && !CommonMileage(mileage.value) {
      warnings' := warnings' + [MileageUnusual];
    }
  }

  /** The input is accepted exactly when no hard rule is broken; warnings never reject. */
  lemma LeaseAcceptedIff(price: real, months: int, down: real, residual: Option<real>, mileage: Option<int>)
    ensures LeaseOutcome(price, months, down, residual, mileage).Accepted?
        <==> price > 0.0 && ValidTerm(months) && 0.0 <= down <= price
             && (residual.Some? ==> 0.0 <= residual.value <= 1.0)
  {
  }

  /** The mileage only ever adds a warning: acceptance and the rejection message do not depend on it. */
  lemma MileageNeverRejects(price: real, months: int, down: real, residual: Option<real>, m1: Option<int>, m2: Option<int>)
    ensures LeaseOutcome(price, months, down, residual, m1).Accepted?
        == LeaseOutcome(price, months, down, residual, m2).Accepted?
    ensures LeaseOutcome(price, months, down, residual, m1).Rejected?
        ==> LeaseOutcome(price, months, down, residual, m1) == LeaseOutcome(price, months, down, residual, m2)
  {
  }

  /** An accepted input reports an unusual mileage exactly when one is given. */
  lemma MileageWarning(price: real, months: int, down: real, residual: Option<real>, mileage: Option<int>)
    requires LeaseOutcome(price, months, down, residual, mileage).Accepted?
    ensures MileageUnusual in LeaseOutcome(price, months, down, residual, mileage).warnings
        <==> mileage.Some? && !CommonMileage(mileage.value)
  {
  }

  /** Each check's findings land in the error or warning list and nowhere else. */
  lemma Located(price: real, months: int, down: real, residual: Option<real>, mileage: Option<int>, x: Issue)
    ensures x in LeaseErrors(price, months, down, residual)
        <==> x in PriceErrors(price) || (x == TermInvalid && !ValidTerm(months))
             || x in DownErrors(price, down) || x in ResidualErrors(residual)
    ensures x in LeaseWarnings(price, down, residual, mileage)
        <==> x in PriceWarnings(price) || x in DownWarnings(price, down)
             || x in ResidualWarnings(residual) || x in MileageWarnings(mileage)
  {
  }

  /** The price rules: a non-positive price is an error; a low or a high price is only a warning, and the three are exclusive. */
  lemma PriceRules(price: real, months: int, down: real, residual: Option<real>, mileage: Option<int>)
    ensures PriceNotPositive in LeaseErrors(price, months, down, residual) <==> price <= 0.0
    ensures PriceLow in LeaseWarnings(price, down, residual, mileage) <==> 0.0 < price < 10_000_000.0
    ensures PriceHigh in LeaseWarnings(price, down, residual, mileage) <==> price > 500_000_000.0
  {
    Located(price, months, down, residual, mileage, PriceNotPositive);
    Located(price, months, down, residual, mileage, PriceLow);
    Located(price, months, down, residual, mileage, PriceHigh);
  }

  /** The down-payment rules: negative or above the price is an error; above half the price (but not above it) is a warning. */
  lemma DownPaymentRules(price: real, months: int, down: real, residual: Option<real>, mileage: Option<int>)
    ensures DownNegative in LeaseErrors(price, months, down, residual) <==> down < 0.0
    ensures DownAbovePrice in LeaseErrors(price, months, down, residual) <==> 0.0 <= down && down > price
    ensures DownAboveHalf in LeaseWarnings(price, down, residual, mileage)
        <==> 0.0 <= down <= price && down > price * 0.5
  {
    Located(price, months, down, residual, mileage, DownNegative);
    Located(price, months, down, residual, mileage, DownAbovePrice);
    Located(price, months, down, residual, mileage, DownAboveHalf);
  }

  /** The residual rules: outside [0, 1] is an error; below 10 % or above 80 % is a warning. */
  lemma ResidualRules(price: real, months: int, down: real, rr: real, mileage: Option<int>)
    ensures ResidualOutOfRange in LeaseErrors(price, months, down, Some(rr)) <==> rr < 0.0 || rr > 1.0
    ensures ResidualLow in LeaseWarnings(price, down, Some(rr), mileage) <==> 0.0 <= rr < 0.1
    ensures ResidualHigh in LeaseWarnings(price, down, Some(rr), mileage) <==> 0.8 < rr <= 1.0
    ensures ResidualOutOfRange !in LeaseErrors(price, months, down, None)
  {
    Located(price, months, down, Some(rr), mileage, ResidualOutOfRange);
    Located(price, months, down, Some(rr), mileage, ResidualLow);
    Located(price, months, down, Some(rr), mileage, ResidualHigh);
    Located(price, months, down, None, mileage, ResidualOutOfRange);
  }

  /** A rejection reports the errors in check order, joined by "; ". */
  lemma RejectionMessage(price: real, months: int, down: real, residual: Option<real>, mileage: Option<int>)
    requires price <= 0.0 && !ValidTerm(months) && down > price && down >= 0.0 && residual.None?
    ensures LeaseOutcome(price, months, down, residual, mileage)
         == Rejected(IssueText(PriceNotPositive) + "; " + IssueText(TermInvalid) + "; " + IssueText(DownAbovePrice))
  {
    var e := [PriceNotPositive, TermInvalid, DownAbovePrice];
    assert LeaseErrors(price, months, down, residual) == e;
    var t := Texts(e);
    assert t[..2][..1] == [IssueText(PriceNotPositive)];
    assert Join(t[..2], "; ") == IssueText(PriceNotPositive) + "; " + IssueText(TermInvalid);
  }

  // ----- recommended down payments -----

  datatype Recommendation = Recommendation(percentage: real, amount: real, description: string)

  const Shares: seq<real> := [0.0, 0.1, 0.2, 0.3]
  const MoreDownNote := "선납금이 많을수록 월 리스료가 낮아집니다"

  /** f"{int(p*100)}% 선납". */
  function ShareLabel(p: real): string {
    IntToDecimal(Trunc(p * 100.0)) + "% 선납"
  }

  /** calculate_recommended_down_payment: one recommendation per share, in order; the income does not change the result. */
  method RecommendDownPayments(price: real, monthlyIncome: Option<real>)
    returns (recommendations: seq<Recommendation>, note: string)
    ensures |recommendations| == |Shares|
    ensures forall i :: 0 <= i < |Shares| ==>
      recommendations[i] == Recommendation(Shares[i], price * Shares[i], ShareLabel(Shares[i]))
    ensures note == MoreDownNote
  {
    recommendations := [];
    for i := 0 to |Shares|
      invariant |recommendations| == i
      invariant forall j :: 0 <= j < i ==>
        recommendations[j] == Recommendation(Shares[j], price * Shares[j], ShareLabel(Shares[j]))
    {
      var p := Shares[i];
      recommendations := recommendations + [Recommendation(p, price * p, ShareLabel(p))];
    }
    note := MoreDownNote;
  }

  /** The four recommendations are 0, 10, 20 and 30 % of the price, labelled accordingly. */
  lemma RecommendationTable(price: real)
    ensures forall i :: 0 <= i < |Shares| ==> price * Shares[i] == price * (i as real) / 10.0
    ensures ShareLabel(Shares[0]) == "0% 선납"
    ensures ShareLabel(Shares[1]) == "10% 선납"
    ensures ShareLabel(Shares[2]) == "20% 선납"
    ensures ShareLabel(Shares[3]) == "30% 선납"
  {
    assert Trunc(Shares[0] * 100.0) == 0;
    assert Trunc(Shares[1] * 100.0) == 10;
    assert Trunc(Shares[2] * 100.0) == 20;
    assert Trunc(Shares[3] * 100.0) == 30;
    assert NatToDecimal(1) == "1";
    assert NatToDecimal(2) == "2";
    assert NatToDecimal(3) == "3";
    assert NatToDecimal(10) == NatToDecimal(1) + "0";
    assert NatToDecimal(20) == NatToDecimal(2) + "0";
    assert NatToDecimal(30) == NatToDecimal(3) + "0";
  }

  // ----- comparison request -----


  function ComparisonOutcome(vehicleCount: nat, capitalCount: nat): Outcome {
    Decide(If(vehicleCount == 0, NoVehicle) + If(capitalCount == 0, NoCapital),
           If(vehicleCount > 5, ManyVehicles))
  }

  /** validate_comparison_inputs; the term and mileage are accepted as given. */
  method ValidateComparisonInputs(vehicleIds: seq<string>, capitalIds: seq<string>, months: int, mileage: int)
    returns (r: Outcome)
    ensures r == ComparisonOutcome(|vehicleIds|, |capitalIds|)
  {
    var errors: seq<Issue> := [];
    var warnings: seq<Issue> := [];
    if |vehicleIds| == 0 {
      errors := errors + [NoVehicle];
    } else if |vehicleIds| > 5 {
      warnings := warnings + [ManyVehicles];
    }
    if |capitalIds| == 0 {
      errors := errors + [NoCapital];
    }
    if |errors| > 0 {
      r := Rejected(Join(Texts(errors), "; "));
    } else {
      r := Accepted(warnings);
    }
  }

  /** A comparison is accepted iff at least one vehicle and one capital are chosen; more than five vehicles only warns. */
  lemma ComparisonRules(vehicleCount: nat, capitalCount: nat)
    ensures ComparisonOutcome(vehicleCount, capitalCount).Accepted? <==> vehicleCount > 0 && capitalCount > 0
    ensures ComparisonOutcome(vehicleCount, capitalCount).Accepted? ==>
      ComparisonOutcome(vehicleCount, capitalCount).warnings == (if vehicleCount > 5 then [ManyVehicles] else [])
    ensures vehicleCount == 0 && capitalCount == 0 ==>
      ComparisonOutcome(vehicleCount, capitalCount) == Rejected(IssueText(NoVehicle) + "; " + IssueText(NoCapital))
  {
    if vehicleCount == 0 && capitalCount == 0 {
      var t := Texts([NoVehicle, NoCapital]);
      assert t[..1] == [IssueText(NoVehicle)];
    }
  }

  // ----- data availability -----

  /**
   * check_data_availability's answer: the rate, or the message of the
   * ValueError (None for the FileNotFoundError, whose message names a path
   * on disk).
   */
  datatype Availability = Available(rate: JsonData.Json) | Unavailable(message: Option<string>)

  /** The option the availability check asks for, get_residual_rate's default. */
  const DefaultGrade := "aps_premium"

  /**
   * check_data_availability over the files on disk. A ValueError or a
   * missing file gives an Unavailable answer; the TypeError of a null entry
   * is not among the exceptions caught and escapes (None).
   */
  function DataAvailability(files: map<string, ResidualRates.RatesFile>, capitalId: string, vehicleId: string,
                            months: int, mileage: int): (r: Option<Availability>)
    ensures r.None? <==> ResidualRates.LookupRate(files, capitalId, vehicleId, months, mileage, DefaultGrade).Raised?
    ensures r == Some(Unavailable(None)) <==> capitalId !in files
    ensures r.Some? && r.value.Available? ==>
      ResidualRates.LookupRate(files, capitalId, vehicleId, months, mileage, DefaultGrade) == ResidualRates.Found(r.value.rate)
    ensures r.Some? && r.value.Unavailable? && r.value.message.Some? ==>
      r.value.message.value == ResidualRates.NoDataMessage(capitalId, vehicleId, DefaultGrade, months, mileage)
  {
    match ResidualRates.LookupRate(files, capitalId, vehicleId, months, mileage, DefaultGrade)
    case Found(v) => Some(Available(v))
    case NoData(message) => Some(Unavailable(Some(message)))
    case FileMissing => Some(Unavailable(None))
    case Raised => None
  }

  /** A vehicle missing from a capital's file is reported unavailable, with the message naming the lookup. */
  lemma UnknownVehicleUnavailable(files: map<string, ResidualRates.RatesFile>, capitalId: string, vehicleId: string,
                                  months: int, mileage: int)
    requires capitalId in files && !Dicts.HasKey(files[capitalId], vehicleId)
    ensures DataAvailability(files, capitalId, vehicleId, months, mileage)
         == Some(Unavailable(Some(ResidualRates.NoDataMessage(capitalId, vehicleId, DefaultGrade, months, mileage))))
  {
    ResidualRates.UnknownVehicleNoData(files[capitalId], capitalId, vehicleId, months, mileage, DefaultGrade);
  }
}
