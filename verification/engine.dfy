/**
 Properties of the full per-household calculation.

 `Calculator.Calculate` is the household share `Calculator.Apportion` of
 the bond's level payment. The first part of this module is about
 `Apportion` for an arbitrary annual debt service: what a household pays
 is its adjusted EAV's share of the debt service, it scales with the debt
 service, a fully exempt home pays nothing and each exemption saves its
 amount times the implied rate. The second part carries these over to
 `Calculate` and combines them with the payment lemmas of `Amortization`:
 a zero bond costs nothing, the cost scales with the principal, and it
 moves with the bond's rate and term as the payment does.

 Nonlinear facts pass between lemmas wrapped in predicates over whole
 results (`SharesDebtService`, `CostsMoreBy`, `CostIsShare`), so that a
 caller and the lemma it calls agree on them term for term.
 */
module Engine {
  import opened Calculator
  import opened Exemptions
  import opened Amortization

  /* ---------- Algebra on apportioned results ---------- */

  /**
   `r` is an internally consistent apportionment: its implied rate is its
   debt service spread over the district's EAV, and its cost is its
   adjusted EAV at that rate.
   */
  predicate SharesDebtService(r: CalculationResult) {
    r.impliedTaxRate * OakParkTotalEAV == r.annualDebtService
    && r.annualCost == r.adjustedEAV * r.impliedTaxRate
  }

  /** `y` is `c` times `x`. */
  predicate Scaled(y: real, c: real, x: real) {
    y == c * x
  }

  /** `r2` costs `amount` times the implied rate of `r1` more than `r1`. */
  predicate CostsMoreBy(r1: CalculationResult, r2: CalculationResult, amount: real) {
    r2.annualCost - r1.annualCost == amount * r1.impliedTaxRate
  }

  /** The cost of `r`, spread over the district's EAV, is its adjusted EAV's share of its debt service. */
  predicate CostIsShare(r: CalculationResult) {
    r.annualCost * OakParkTotalEAV == r.annualDebtService * r.adjustedEAV
  }

  /** A consistent result charges its adjusted EAV's share of the debt service. */
  lemma {:induction false} ShareOfDebtService(r: CalculationResult)
    requires SharesDebtService(r)
    ensures CostIsShare(r)
  {
    assert r.annualCost * OakParkTotalEAV == r.adjustedEAV * (r.impliedTaxRate * OakParkTotalEAV);
  }

  /** Every result of `Apportion` is consistent. */
  lemma {:induction false} ApportionSharesDebtService(annualDebtService: real, home: HomeParams)
    ensures SharesDebtService(Apportion(annualDebtService, home))
  {
  }

  /** Two shares of the same adjusted EAV, one of a debt `c` times the other's: the rate and the cost scale by `c`. */
  lemma {:induction false} ShareScales(r1: CalculationResult, r2: CalculationResult, c: real)
    requires SharesDebtService(r1) && SharesDebtService(r2)
    requires r2.adjustedEAV == r1.adjustedEAV && Scaled(r2.annualDebtService, c, r1.annualDebtService)
    ensures Scaled(r2.impliedTaxRate, c, r1.impliedTaxRate) && Scaled(r2.annualCost, c, r1.annualCost)
  {
    assert (r2.impliedTaxRate - c * r1.impliedTaxRate) * OakParkTotalEAV == 0.0;
  }

  /** A share of a larger debt, for the same positive adjusted EAV, has a larger rate and a larger cost. */
  lemma {:induction false} ShareGrows(r1: CalculationResult, r2: CalculationResult)
    requires SharesDebtService(r1) && SharesDebtService(r2)
    requires r2.adjustedEAV == r1.adjustedEAV > 0.0 && r1.annualDebtService < r2.annualDebtService
    ensures r1.impliedTaxRate < r2.impliedTaxRate && r1.annualCost < r2.annualCost
  {
    assert (r2.impliedTaxRate - r1.impliedTaxRate) * OakParkTotalEAV == r2.annualDebtService - r1.annualDebtService;
  }

  /**
   Two shares at the same rate whose adjusted EAVs differ by `amount`
   differ in cost by `amount` times that rate.
   */
  lemma {:induction false} SavingStep(r1: CalculationResult, r2: CalculationResult, amount: real)
    requires SharesDebtService(r1) && SharesDebtService(r2)
    requires r2.impliedTaxRate == r1.impliedTaxRate
    requires r2.adjustedEAV - r1.adjustedEAV == amount
    ensures CostsMoreBy(r1, r2, amount)
  {
  }

  /* ---------- The household's share of a given debt service ---------- */

  /** The annual cost is the adjusted EAV's share of the district's annual debt service. */
  lemma {:induction false} CostIsShareOfDebtService(annualDebtService: real, home: HomeParams)
    ensures Apportion(annualDebtService, home).annualCost * OakParkTotalEAV
      == annualDebtService * Apportion(annualDebtService, home).adjustedEAV
  {
    var r := Apportion(annualDebtService, home);
    assert r.annualCost * OakParkTotalEAV == r.adjustedEAV * (r.impliedTaxRate * OakParkTotalEAV);
  }

  /** The adjusted EAV is the equalized value less the exemptions, floored at zero. */
  lemma {:induction false} AdjustedEAVIsFlooredDifference(annualDebtService: real, home: HomeParams)
    ensures Apportion(annualDebtService, home).adjustedEAV
      == if EqualizedValue(home) >= TotalExemptions(home)
         then EqualizedValue(home) - TotalExemptions(home) else 0.0
  {
  }

  /** No debt service means no implied rate and no cost. */
  lemma {:induction false} NoDebtServiceCostsNothing(home: HomeParams)
    ensures Apportion(0.0, home).impliedTaxRate == 0.0
    ensures Apportion(0.0, home).annualCost == 0.0
    ensures Apportion(0.0, home).monthlyCost == 0.0
  {
  }

  /** If the debt service is multiplied by `c`, so are the implied rate and the household's cost. */
  lemma {:induction false} CostFollowsDebtService(ds1: real, ds2: real, home: HomeParams, c: real)
    requires ds2 == c * ds1
    ensures Apportion(ds2, home).impliedTaxRate == c * Apportion(ds1, home).impliedTaxRate
    ensures Apportion(ds2, home).annualCost == c * Apportion(ds1, home).annualCost
  {
    ApportionSharesDebtService(ds1, home);
    ApportionSharesDebtService(ds2, home);
    assert Scaled(Apportion(ds2, home).annualDebtService, c, Apportion(ds1, home).annualDebtService);
    ShareScales(Apportion(ds1, home), Apportion(ds2, home), c);
  }

  /** A larger debt service means a larger implied rate and, for a taxed home, a larger cost. */
  lemma {:induction false} CostRisesWithDebtService(ds1: real, ds2: real, home: HomeParams)
    requires ds1 < ds2 && Apportion(ds1, home).adjustedEAV > 0.0
    ensures Apportion(ds1, home).impliedTaxRate < Apportion(ds2, home).impliedTaxRate
    ensures Apportion(ds1, home).annualCost < Apportion(ds2, home).annualCost
  {
    ApportionSharesDebtService(ds1, home);
    ApportionSharesDebtService(ds2, home);
    ShareGrows(Apportion(ds1, home), Apportion(ds2, home));
  }

  /** The implied tax rate depends on the debt service alone, not on the home. */
  lemma {:induction false} RateIgnoresHome(annualDebtService: real, h1: HomeParams, h2: HomeParams)
    ensures Apportion(annualDebtService, h1).impliedTaxRate == Apportion(annualDebtService, h2).impliedTaxRate
  {
  }

  /** For one debt service, two homes' costs differ by the difference of their adjusted EAVs times the rate. */
  lemma {:induction false} CostDifferenceFollowsAdjustedEAV(annualDebtService: real, h1: HomeParams, h2: HomeParams)
    ensures Apportion(annualDebtService, h1).impliedTaxRate == Apportion(annualDebtService, h2).impliedTaxRate
    ensures Apportion(annualDebtService, h1).annualCost - Apportion(annualDebtService, h2).annualCost
      == (Apportion(annualDebtService, h1).adjustedEAV - Apportion(annualDebtService, h2).adjustedEAV)
         * Apportion(annualDebtService, h1).impliedTaxRate
  {
  }

  /** A home whose exemptions cover its equalized value owes nothing. */
  lemma {:induction false} FullyExemptOwesNothing(annualDebtService: real, home: HomeParams)
    requires EqualizedValue(home) <= TotalExemptions(home)
    ensures Apportion(annualDebtService, home).adjustedEAV == 0.0
    ensures Apportion(annualDebtService, home).annualCost == 0.0
    ensures Apportion(annualDebtService, home).monthlyCost == 0.0
  {
  }

  /**
   Checking exemption `e` lowers the adjusted EAV by at most its amount,
   and by exactly its amount when the equalized value covers the larger
   total.
   */
  lemma {:induction false} ExemptionLowersAdjustedEAV(annualDebtService: real, home: HomeParams, e: Exemption)
    ensures 0.0 <= Apportion(annualDebtService, WithExemption(home, e, false)).adjustedEAV
      - Apportion(annualDebtService, WithExemption(home, e, true)).adjustedEAV <= Amount(e)
    ensures EqualizedValue(home) >= TotalExemptions(WithExemption(home, e, true)) ==>
      Apportion(annualDebtService, WithExemption(home, e, false)).adjustedEAV
      - Apportion(annualDebtService, WithExemption(home, e, true)).adjustedEAV == Amount(e)
  {
    TotalExemptionsToggle(home, e);
  }

  /**
   Two homes of the same equalized value, the first with `amount` more in
   exemptions and still taxed above them: their adjusted EAVs differ by
   exactly `amount`.
   */
  lemma {:induction false} ExtraExemptionLowersAdjustedEAV(annualDebtService: real, h1: HomeParams, h2: HomeParams,
                                                           amount: real)
    requires EqualizedValue(h1) == EqualizedValue(h2)
    requires TotalExemptions(h1) == TotalExemptions(h2) + amount
    requires EqualizedValue(h1) >= TotalExemptions(h1) && amount >= 0.0
    ensures Apportion(annualDebtService, h2).adjustedEAV - Apportion(annualDebtService, h1).adjustedEAV == amount
  {
  }

  /** Two homes whose adjusted EAVs differ by `amount` pay `amount` times the implied rate apart. */
  lemma {:induction false} SavingAtOneRate(annualDebtService: real, h1: HomeParams, h2: HomeParams, amount: real)
    requires Apportion(annualDebtService, h2).adjustedEAV - Apportion(annualDebtService, h1).adjustedEAV == amount
    ensures Apportion(annualDebtService, h2).annualCost - Apportion(annualDebtService, h1).annualCost
      == amount * Apportion(annualDebtService, h1).impliedTaxRate
  {
    RateIgnoresHome(annualDebtService, h1, h2);
    ApportionSharesDebtService(annualDebtService, h1);
    ApportionSharesDebtService(annualDebtService, h2);
    SavingStep(Apportion(annualDebtService, h1), Apportion(annualDebtService, h2), amount);
    assert CostsMoreBy(Apportion(annualDebtService, h1), Apportion(annualDebtService, h2), amount);
  }

  /**
   Two homes of the same equalized value, the first with `amount` more in
   exemptions and still fully taxed above them: the second pays `amount`
   times the implied rate more.
   */
  lemma {:induction false} ExtraExemptionSaving(annualDebtService: real, h1: HomeParams, h2: HomeParams, amount: real)
    requires EqualizedValue(h1) == EqualizedValue(h2)
    requires TotalExemptions(h1) == TotalExemptions(h2) + amount
    requires EqualizedValue(h1) >= TotalExemptions(h1) && amount >= 0.0
    ensures Apportion(annualDebtService, h2).annualCost - Apportion(annualDebtService, h1).annualCost
      == amount * Apportion(annualDebtService, h1).impliedTaxRate
  {
    ExtraExemptionLowersAdjustedEAV(annualDebtService, h1, h2, amount);
    SavingAtOneRate(annualDebtService, h1, h2, amount);
  }

  /**
   When the equalized value covers the total with `e` checked, checking
   `e` saves exactly its amount times the implied tax rate each year.
   */
  lemma {:induction false} ExemptionSavesAmountTimesRate(annualDebtService: real, home: HomeParams, e: Exemption)
    requires EqualizedValue(home) >= TotalExemptions(WithExemption(home, e, true))
    ensures Apportion(annualDebtService, WithExemption(home, e, false)).annualCost
      - Apportion(annualDebtService, WithExemption(home, e, true)).annualCost
      == Amount(e) * Apportion(annualDebtService, home).impliedTaxRate
  {
    TotalExemptionsToggle(home, e);
    RateIgnoresHome(annualDebtService, WithExemption(home, e, true), home);
    ExtraExemptionSaving(annualDebtService, WithExemption(home, e, true), WithExemption(home, e, false), Amount(e));
  }

  /* ---------- The full calculation ---------- */

  /** The district's debt service is the bond's level annual payment, and the cost its share of it. */
  lemma {:induction false} CalculateChargesThePayment(bond: BondParams, home: HomeParams)
    requires ValidBond(bond)
    ensures Calculate(bond, home).annualDebtService == Pmt(bond.principal, bond.interestRate, bond.termYears)
    ensures CostIsShare(Calculate(bond, home))
  {
    ApportionSharesDebtService(Pmt(bond.principal, bond.interestRate, bond.termYears), home);
    ShareOfDebtService(Calculate(bond, home));
  }

  /** A bond of zero principal has no debt service, no implied rate and costs nothing. */
  lemma {:induction false} ZeroPrincipalCostsNothing(bond: BondParams, home: HomeParams)
    requires ValidBond(bond) && bond.principal == 0.0
    ensures Calculate(bond, home).annualDebtService == 0.0
    ensures Calculate(bond, home).impliedTaxRate == 0.0
    ensures Calculate(bond, home).annualCost == 0.0
    ensures Calculate(bond, home).monthlyCost == 0.0
  {
    PmtSign(bond.principal, bond.interestRate, bond.termYears);
    NoDebtServiceCostsNothing(home);
  }

  /** A bond of positive principal makes every household's cost non-negative. */
  lemma {:induction false} PositivePrincipalCostsNonNegative(bond: BondParams, home: HomeParams)
    requires ValidBond(bond) && bond.principal > 0.0
    ensures Calculate(bond, home).annualDebtService > 0.0
    ensures Calculate(bond, home).impliedTaxRate > 0.0
    ensures Calculate(bond, home).annualCost >= 0.0
    ensures Calculate(bond, home).monthlyCost >= 0.0
  {
    PmtSign(bond.principal, bond.interestRate, bond.termYears);
  }

  /** Multiplying the principal by `c` multiplies the debt service, the rate and the cost by `c`. */
  lemma {:induction false} CostScalesWithPrincipal(bond: BondParams, home: HomeParams, c: real)
    requires ValidBond(bond)
    ensures Calculate(bond.(principal := c * bond.principal), home).annualDebtService
      == c * Calculate(bond, home).annualDebtService
    ensures Calculate(bond.(principal := c * bond.principal), home).impliedTaxRate
      == c * Calculate(bond, home).impliedTaxRate
    ensures Calculate(bond.(principal := c * bond.principal), home).annualCost
      == c * Calculate(bond, home).annualCost
  {
    PmtScalesWithPrincipal(bond.principal, c, bond.interestRate, bond.termYears);
    CostFollowsDebtService(Pmt(bond.principal, bond.interestRate, bond.termYears),
      Pmt(c * bond.principal, bond.interestRate, bond.termYears), home, c);
  }

  /** Doubling the principal doubles the annual cost. */
  lemma {:induction false} DoublingPrincipalDoublesCost(bond: BondParams, home: HomeParams)
    requires ValidBond(bond)
    ensures Calculate(bond.(principal := 2.0 * bond.principal), home).annualCost
      == 2.0 * Calculate(bond, home).annualCost
  {
    CostScalesWithPrincipal(bond, home, 2.0);
  }

  /** A $10,000 home with the homeowner and senior exemptions is fully exempt. */
  lemma {:induction false} LowValueHomeIsFullyExempt(bond: BondParams)
    requires ValidBond(bond)
    ensures Calculate(bond, HomeParams(10000.0, true, true, false, false)).adjustedEAV == 0.0
    ensures Calculate(bond, HomeParams(10000.0, true, true, false, false)).annualCost == 0.0
  {
    FullyExemptOwesNothing(Pmt(bond.principal, bond.interestRate, bond.termYears),
      HomeParams(10000.0, true, true, false, false));
  }

  /** The intermediate values for a $430,000 home with the homeowner exemption. */
  lemma {:induction false} HomeownerExample430000(bond: BondParams)
    requires ValidBond(bond)
    ensures Calculate(bond, HomeParams(430000.0, true, false, false, false)).assessedValue == 43000.0
    ensures Calculate(bond, HomeParams(430000.0, true, false, false, false)).equalizedValue == 130526.5
    ensures Calculate(bond, HomeParams(430000.0, true, false, false, false)).totalExemptions == 10000.0
    ensures Calculate(bond, HomeParams(430000.0, true, false, false, false)).adjustedEAV == 120526.5
  {
  }

  /** The application's starting bond is valid, and with it the $430,000 homeowner example holds. */
  lemma {:induction false} DefaultBondExample()
    ensures ValidBond(DefaultBond)
    ensures DefaultBond.principal == 100000000.0 && DefaultBond.termYears == 30 && DefaultBond.interestRate == 0.0445
    ensures Calculate(DefaultBond, HomeParams(430000.0, true, false, false, false)).adjustedEAV == 120526.5
  {
    HomeownerExample430000(DefaultBond);
  }

  /**
   For any bond, when the equalized value covers the total with `e`
   checked, checking `e` saves its amount times the implied tax rate.
   */
  lemma {:induction false} ExemptionSavesAmountTimesBondRate(bond: BondParams, home: HomeParams, e: Exemption)
    requires ValidBond(bond)
    requires EqualizedValue(home) >= TotalExemptions(WithExemption(home, e, true))
    ensures Calculate(bond, WithExemption(home, e, false)).annualCost
      - Calculate(bond, WithExemption(home, e, true)).annualCost
      == Amount(e) * Calculate(bond, home).impliedTaxRate
  {
    ExemptionSavesAmountTimesRate(Pmt(bond.principal, bond.interestRate, bond.termYears), home, e);
  }

  /** While the home stays taxed, the homeowner exemption saves 10,000 times the implied tax rate. */
  lemma {:induction false} HomeownerExemptionSaving(bond: BondParams, home: HomeParams)
    requires ValidBond(bond)
    requires EqualizedValue(home) >= TotalExemptions(home.(homeownerExemption := true))
    ensures Calculate(bond, home.(homeownerExemption := false)).annualCost
      - Calculate(bond, home.(homeownerExemption := true)).annualCost
      == 10000.0 * Calculate(bond, home).impliedTaxRate
  {
    ExemptionSavesAmountTimesBondRate(bond, home, Homeowner);
  }

  /** For a taxed home and a positive principal, a higher rate strictly raises the debt service and the cost. */
  lemma {:induction false} CostRisesWithRate(bond: BondParams, home: HomeParams, higher: real)
    requires ValidBond(bond) && bond.principal > 0.0 && bond.interestRate < higher
    requires Calculate(bond, home).adjustedEAV > 0.0
    ensures Calculate(bond, home).annualDebtService
      < Calculate(bond.(interestRate := higher), home).annualDebtService
    ensures Calculate(bond, home).annualCost < Calculate(bond.(interestRate := higher), home).annualCost
  {
    PmtRisesWithRate(bond.principal, bond.interestRate, higher, bond.termYears);
    CostRisesWithDebtService(Pmt(bond.principal, bond.interestRate, bond.termYears),
      Pmt(bond.principal, higher, bond.termYears), home);
  }

  /** For a taxed home and a positive principal, a longer term strictly lowers the debt service and the cost. */
  lemma {:induction false} CostFallsWithTerm(bond: BondParams, home: HomeParams, longer: nat)
    requires ValidBond(bond) && bond.principal > 0.0 && bond.termYears < longer
    requires Calculate(bond, home).adjustedEAV > 0.0
    ensures Calculate(bond.(termYears := longer), home).annualDebtService
      < Calculate(bond, home).annualDebtService
    ensures Calculate(bond.(termYears := longer), home).annualCost < Calculate(bond, home).annualCost
  {
    PmtFallsWithTerm(bond.principal, bond.interestRate, bond.termYears, longer);
    CostRisesWithDebtService(Pmt(bond.principal, bond.interestRate, longer),
      Pmt(bond.principal, bond.interestRate, bond.termYears), home);
  }

  /** With interest and a positive principal, a longer term strictly raises the total repaid. */
  lemma {:induction false} TotalDebtServiceRisesWithTerm(bond: BondParams, home: HomeParams, longer: nat)
    requires ValidBond(bond) && bond.principal > 0.0 && bond.interestRate > 0.0
    requires bond.termYears < longer
    ensures Calculate(bond, home).annualDebtService * bond.termYears as real
      < Calculate(bond.(termYears := longer), home).annualDebtService * longer as real
  {
    TotalRepaidRisesWithTerm(bond.principal, bond.interestRate, bond.termYears, longer);
    assert TotalRepaid(bond.principal, bond.interestRate, bond.termYears)
      == Calculate(bond, home).annualDebtService * bond.termYears as real;
    assert TotalRepaid(bond.principal, bond.interestRate, longer)
      == Calculate(bond.(termYears := longer), home).annualDebtService * longer as real;
  }
}
