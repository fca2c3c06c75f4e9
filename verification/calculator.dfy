/**
 This module models the property-tax calculation engine: the table of
 Cook County constants, the bond and home parameter records, the result
 record, the level-payment (PMT) formula, the exemption sum and the full
 per-household calculation. Every number is an exact `real`.
 */
module Calculator {

  /* The constants table. Dollar amounts, fractional rates and ratios. */
  const BondPrincipal: real := 100000000.0
  const TermYears: nat := 30
  const InterestRate: real := 0.0445
  const AssessmentRatio: real := 0.10
  const EqualizationMultiplier: real := 3.0355
  const OakParkTotalEAV: real := 2361857488.0
  const MedianHomeValue: real := 465500.0
  const HomeownerExemptionAmount: real := 10000.0
  const SeniorExemptionAmount: real := 8000.0
  const DisabledPersonExemptionAmount: real := 2000.0
  const ReturningVeteranExemptionAmount: real := 5000.0

  /** The sum of all four scheduled exemption amounts. */
  const MaxExemptions: real :=
    HomeownerExemptionAmount + SeniorExemptionAmount
    + DisabledPersonExemptionAmount + ReturningVeteranExemptionAmount

  /** The terms of the bond: amount borrowed, term in whole years, annual rate. */
  datatype BondParams = BondParams(principal: real, termYears: nat, interestRate: real)

  /** One household: its market value and the four exemption flags. */
  datatype HomeParams = HomeParams(
    marketValue: real,
    homeownerExemption: bool,
    seniorExemption: bool,
    disabledPersonExemption: bool,
    returningVeteranExemption: bool)

  /** The itemized breakdown produced by `Calculate`. */
  datatype CalculationResult = CalculationResult(
    assessedValue: real,
    equalizedValue: real,
    totalExemptions: real,
    adjustedEAV: real,
    annualDebtService: real,
    impliedTaxRate: real,
    annualCost: real,
    monthlyCost: real)

  /** The bond the application starts with. */
  const DefaultBond: BondParams := BondParams(BondPrincipal, TermYears, InterestRate)

  /** Bond terms for which the payment formula is defined. */
  predicate ValidBond(bond: BondParams) {
    bond.termYears >= 1 && bond.interestRate >= 0.0
  }

  /** `x` raised to the natural power `n`. */
  function Pow(x: real, n: nat): (p: real)
    ensures x > 0.0 ==> p > 0.0
    ensures x >= 1.0 ==> p >= 1.0
    ensures x > 1.0 && n >= 1 ==> p > 1.0
  {
    if n == 0 then 1.0 else x * Pow(x, n - 1)
  }

  /**
   The level annual payment that repays `principal` at `annualRate` over
   `years` years: straight-line when the rate is zero, otherwise
   P * r / (1 - (1 + r)^-n).
   */
  function Pmt(principal: real, annualRate: real, years: nat): real
    requires years >= 1 && annualRate >= 0.0
  {
    if annualRate == 0.0 then principal / years as real
    else
      var r := annualRate;
      var n := years;
      (principal * r) / (1.0 - 1.0 / Pow(1.0 + r, n))
  }

  /** The payment has the sign of the principal. */
  lemma {:induction false} PmtSign(principal: real, annualRate: real, years: nat)
    requires years >= 1 && annualRate >= 0.0
    ensures principal == 0.0 <==> Pmt(principal, annualRate, years) == 0.0
    ensures principal > 0.0 <==> Pmt(principal, annualRate, years) > 0.0
    ensures principal < 0.0 <==> Pmt(principal, annualRate, years) < 0.0
  {
    if annualRate == 0.0 {
      SignOfQuotient(principal, years as real);
    } else {
      var r := annualRate;
      var discount := 1.0 / Pow(1.0 + r, years);
      assert 0.0 < discount < 1.0;
      SignOfQuotient(principal * r, 1.0 - discount);
    }
  }

  /** Dividing by a positive number keeps the sign of the dividend. */
  lemma {:induction false} SignOfQuotient(a: real, b: real)
    requires b > 0.0
    ensures a == 0.0 <==> a / b == 0.0
    ensures a > 0.0 <==> a / b > 0.0
    ensures a < 0.0 <==> a / b < 0.0
  {
    assert (a / b) * b == a;
  }

  /** The larger of two reals. */
  function Max(a: real, b: real): (m: real)
    ensures m >= a && m >= b
    ensures m == a || m == b
  {
    if a >= b then a else b
  }

  /** The dollar value of every exemption the household has checked. */
  function TotalExemptions(home: HomeParams): (total: real)
    ensures 0.0 <= total <= MaxExemptions
    ensures total == 0.0 <==>
      !home.homeownerExemption && !home.seniorExemption
      && !home.disabledPersonExemption && !home.returningVeteranExemption
    ensures total == MaxExemptions <==>
      home.homeownerExemption && home.seniorExemption
      && home.disabledPersonExemption && home.returningVeteranExemption
  {
    var t0 := 0.0;
    var t1 := if home.homeownerExemption then t0 + HomeownerExemptionAmount else t0;
    var t2 := if home.seniorExemption then t1 + SeniorExemptionAmount else t1;
    var t3 := if home.disabledPersonExemption then t2 + DisabledPersonExemptionAmount else t2;
    var t4 := if home.returningVeteranExemption then t3 + ReturningVeteranExemptionAmount else t3;
    t4
  }

  /** The assessed value: the assessment ratio's share of the market value. */
  function AssessedValue(home: HomeParams): (v: real)
    ensures home.marketValue >= 0.0 ==> v >= 0.0
  {
    home.marketValue * AssessmentRatio
  }

  /** The equalized assessed value: the assessed value times the equalization multiplier. */
  function EqualizedValue(home: HomeParams): (v: real)
    ensures home.marketValue >= 0.0 ==> v >= 0.0
  {
    AssessedValue(home) * EqualizationMultiplier
  }

  /**
   The household's side of the calculation for a district whose bond costs
   `annualDebtService` a year: the implied district rate, the home's
   assessed, equalized and adjusted EAV, and its annual and monthly share.
   */
  function Apportion(annualDebtService: real, home: HomeParams): (result: CalculationResult)
    ensures result.annualDebtService == annualDebtService
    ensures result.assessedValue == AssessedValue(home) && result.equalizedValue == EqualizedValue(home)
    ensures result.totalExemptions == TotalExemptions(home)
    ensures result.adjustedEAV >= 0.0
    ensures result.adjustedEAV == 0.0 <==> result.equalizedValue <= result.totalExemptions
    ensures result.adjustedEAV > 0.0 ==>
      result.adjustedEAV + result.totalExemptions == result.equalizedValue
    ensures result.impliedTaxRate * OakParkTotalEAV == annualDebtService
    ensures result.annualCost == result.adjustedEAV * result.impliedTaxRate
    ensures result.monthlyCost * 12.0 == result.annualCost
    ensures annualDebtService >= 0.0 ==>
      result.impliedTaxRate >= 0.0 && result.annualCost >= 0.0 && result.monthlyCost >= 0.0
  {
    var impliedTaxRate := annualDebtService / OakParkTotalEAV;

    var assessedValue := AssessedValue(home);
    var equalizedValue := EqualizedValue(home);
    var exemptions := TotalExemptions(home);
    var adjustedEAV := Max(0.0, equalizedValue - exemptions);

    var annualCost := adjustedEAV * impliedTaxRate;
    var monthlyCost := annualCost / 12.0;

    CalculationResult(
      assessedValue,
      equalizedValue,
      exemptions,
      adjustedEAV,
      annualDebtService,
      impliedTaxRate,
      annualCost,
      monthlyCost)
  }

  /**
   The full calculation: the bond's level annual payment is the district's
   debt service, apportioned to the household by `Apportion`.
   */
  function Calculate(bond: BondParams, home: HomeParams): CalculationResult
    requires ValidBond(bond)
  {
    Apportion(Pmt(bond.principal, bond.interestRate, bond.termYears), home)
  }
}
