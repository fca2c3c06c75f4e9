# Oak Park bond cost calculator — a Dafny model of the calculation engine

The calculator estimates what a district bond costs one household a year. It
uses Cook County property-tax mechanics:

1. the bond's level annual payment (the PMT formula) is the district's annual
   debt service;
2. the debt service spread over the village's total equalized assessed value
   (EAV) is the implied tax rate;
3. the home's market value times the 10 % assessment ratio is its assessed
   value;
4. the assessed value times the 3.0355 equalization multiplier is its
   equalized value;
5. the checked exemptions are subtracted, floored at zero, to give the
   adjusted EAV;
6. the adjusted EAV times the implied rate is the annual cost, and a twelfth
   of that is the monthly cost.

The model has four modules. Every number is an exact `real`.

- `Calculator` (`calculator.dfy`) holds the engine itself:
  - the constants table, and the `BondParams`, `HomeParams` and
    `CalculationResult` records;
  - `Pmt`, `TotalExemptions` and `Calculate`.

  `Calculate` is written as `Apportion(Pmt(...), home)`. `Apportion` is the
  household side of the calculation for a given annual debt service (steps
  2–6). It keeps the same operations, in the same order, on the same
  constants.
- `Exemptions` (`exemptions.dfy`) sees the four flags as a set of exemptions.
  It proves that the fixed-order sum `TotalExemptions` equals an order-free sum
  over the claimed set. It also proves that checking one exemption adds
  exactly its amount.
- `Amortization` (`amortization.dfy`) gives the payment two independent
  meanings:
  - the year-by-year loan balance (interest added, payment taken off);
  - the annuity factor (the present value of one dollar a year).

  It proves that `Pmt` is the one level payment that clears the loan, and the
  payment whose present value is the principal. From these follow the
  payment's linearity, and how it moves with the rate and the term.
- `Engine` (`engine.dfy`) states the properties of `Apportion` and of
  `Calculate`:
  - the floor at zero, and the exact monthly/annual and cost/rate relations;
  - zero and doubled principal;
  - the $430,000 example;
  - the saving each exemption brings;
  - the cost's sensitivity to the bond's rate and term.

## Model

| member | source | states |
|---|---|---|
| Calculator.Pow | src/calculator.ts:51 | powers of a positive base are positive; of a base of at least one, at least one; of a base above one to a positive power, above one |
| Calculator.PmtSign | src/calculator.ts:41-52 | the annual payment is zero, positive or negative exactly when the principal is: a non-negative principal never gives a negative payment |
| Calculator.SignOfQuotient | src/calculator.ts:48 | dividing by a positive number (the term, in the zero-rate branch) keeps the sign of the dividend, in both directions |
| Calculator.TotalExemptions | src/calculator.ts:55-62 | the exemption total lies between 0 and the $25,000 sum of all four amounts; it is 0 exactly when no flag is set, and the maximum exactly when all four are |
| Calculator.AssessedValue | src/calculator.ts:76 | a non-negative market value has a non-negative assessed value |
| Calculator.EqualizedValue | src/calculator.ts:77 | a non-negative market value has a non-negative equalized value |
| Calculator.Apportion | src/calculator.ts:74-93 | the result carries the given debt service, the home's assessed value (market value × 0.10), its equalized value (assessed value × 3.0355) and its exemption total; the adjusted EAV is never negative, is zero exactly when the exemptions cover the equalized value, and otherwise is the equalized value less the exemptions; rate × district EAV = debt service; annual cost = adjusted EAV × rate; monthly × 12 = annual; a non-negative debt service gives a non-negative rate and costs |
| Calculator.Max | src/calculator.ts:79 | the maximum is one of its arguments and at least both |
| Exemptions.Amount | src/calculator.ts:10-13 | every scheduled exemption amount is positive |
| Exemptions.WithExemption | src/calculator.test.ts:10-22 | setting one flag leaves the other three flags and the market value unchanged |
| Exemptions.Claimed | src/calculator.ts:57-60 | an exemption is in the claimed set exactly when its flag is set |
| Exemptions.TotalIsSumOfClaimed | src/calculator.ts:55-62 | the fixed-order total equals the order-free sum of the amounts of the claimed exemptions |
| Exemptions.SumInOrderIsSumAmounts | src/calculator.ts:56-61 | adding the amounts of distinct exemptions one by one, in any order, gives the order-free sum over their set |
| Exemptions.TotalIsOrderIndependent | src/calculator.ts:56-61 | adding the claimed amounts in any order gives the total the source computes |
| Exemptions.TotalExemptionsToggle | src/calculator.ts:57-60 | checking one exemption adds exactly its scheduled amount to the total, whatever the other flags |
| Exemptions.TotalExemptionsExamples | src/calculator.test.ts:50-70 | the total is 0 with nothing checked, 10,000 for the homeowner exemption alone and 25,000 for all four |
| Exemptions.SumAmountsRemove | src/calculator.ts:56-61 | any claimed exemption can be the first one taken out of the sum |
| Exemptions.SumAmountsAdd | src/calculator.ts:56-61 | adding a new exemption to a set adds its amount to the sum |
| Amortization.FutureValueFactor | src/calculator.ts:45 | one dollar a year for at least one year grows to at least one dollar |
| Amortization.AnnuityFactor | src/calculator.ts:45 | one dollar a year for at least one year is worth something positive today, and for zero years nothing |
| Amortization.TotalRepaid | src/calculator.test.ts:185-190 | a positive principal means a positive total repaid |
| Amortization.BalanceClosedForm | src/calculator.ts:41-45 | the balance after `k` years plus what the payments have grown to equals what the principal has grown to |
| Amortization.FutureValueFactorClosedForm | src/calculator.ts:45 | the geometric-series closed form of the future-value factor |
| Amortization.AnnuityFactorClosedForm | src/calculator.ts:45 | the geometric-series closed form of the annuity factor, a(n) · r = 1 − (1 + r)^−n |
| Amortization.PmtTimesFutureValueFactor | src/calculator.ts:47-52 | the payment's future value over the term equals the principal's future value, at zero and at positive rates |
| Amortization.AmortizingPaymentIsUnique | src/calculator.ts:41-45 | a level payment clears the loan exactly when it is the one whose future value matches the principal's |
| Amortization.PmtAmortizes | src/calculator.ts:41-52 | a level payment leaves a zero balance at the end of the term if and only if it is the payment `Pmt` computes |
| Amortization.PmtPresentValue | src/calculator.ts:47-52 | the present value of the payments over the term equals the principal |
| Amortization.PmtZeroRate | src/calculator.ts:48 | with no interest the payment times the term is the principal, and `Pmt(300000, 0, 30) = 10000` |
| Amortization.PmtScalesWithPrincipal | src/calculator.ts:47-52 | the payment is linear in the principal: `c` times the principal gives `c` times the payment |
| Amortization.PmtFallsWithTerm | src/calculator.ts:47-52 | for a positive principal, a longer term gives a strictly smaller payment |
| Amortization.PmtRisesWithRate | src/calculator.ts:47-52 | for a positive principal, a higher rate gives a strictly larger payment |
| Amortization.AnnuityFactorGrowsWithTerm | src/calculator.ts:45 | every extra year adds to the annuity factor |
| Amortization.AnnuityFactorFallsWithRate | src/calculator.ts:45 | a higher rate gives a smaller annuity factor |
| Amortization.TotalRepaidRisesWithTerm | src/calculator.test.ts:185-190 | with interest, a longer term strictly raises the total repaid |
| Amortization.TotalRepaidZeroRate | src/calculator.ts:48 | with no interest the total repaid is the principal, whatever the term |
| Engine.ApportionSharesDebtService | src/calculator.ts:74-81 | every apportionment has its rate equal to the debt service over the district EAV, and its cost equal to the adjusted EAV at that rate |
| Engine.CostIsShareOfDebtService | src/calculator.ts:74-81 | cost × district EAV = debt service × adjusted EAV: the household pays its adjusted EAV's share of the debt service |
| Engine.AdjustedEAVIsFlooredDifference | src/calculator.ts:79 | the adjusted EAV is the equalized value less the exemptions when that is non-negative, and zero otherwise |
| Engine.NoDebtServiceCostsNothing | src/calculator.ts:74-82 | with no debt service, the rate, the annual cost and the monthly cost are zero |
| Engine.CostFollowsDebtService | src/calculator.ts:74-81 | multiplying the debt service by `c` multiplies the rate and the cost by `c` |
| Engine.CostRisesWithDebtService | src/calculator.ts:74-81 | for a home with a positive adjusted EAV, a larger debt service gives a strictly larger rate and cost |
| Engine.RateIgnoresHome | src/calculator.ts:74 | the implied rate does not depend on the home |
| Engine.CostDifferenceFollowsAdjustedEAV | src/calculator.ts:79-81 | for one debt service, two homes' costs differ by the difference of their adjusted EAVs times the rate |
| Engine.FullyExemptOwesNothing | src/calculator.ts:79-82 | a home whose exemptions cover its equalized value has zero adjusted EAV, annual cost and monthly cost |
| Engine.ExemptionLowersAdjustedEAV | src/calculator.ts:57-79 | checking an exemption lowers the adjusted EAV by between zero and its amount, and by exactly its amount while the home stays taxed |
| Engine.ExtraExemptionLowersAdjustedEAV | src/calculator.ts:79 | two homes of the same equalized value, the first with `amount` more exemptions and still taxed: their adjusted EAVs differ by exactly `amount` |
| Engine.ExtraExemptionSaving | src/calculator.ts:79-81 | in the same situation, the second home pays exactly `amount` × rate more |
| Engine.SavingAtOneRate | src/calculator.ts:81 | two homes whose adjusted EAVs differ by `amount` pay `amount` × rate apart |
| Engine.ExemptionSavesAmountTimesRate | src/calculator.ts:57-81 | while the equalized value covers the larger total, checking exemption `e` saves exactly its amount times the implied rate |
| Engine.CalculateChargesThePayment | src/calculator.ts:73-81 | the district's debt service is the bond's level payment, and the household pays its adjusted EAV's share of it |
| Engine.ZeroPrincipalCostsNothing | src/calculator.test.ts:174-177 | a zero-principal bond gives zero debt service, zero rate, and zero annual and monthly cost |
| Engine.PositivePrincipalCostsNonNegative | src/calculator.ts:41-43 | a positive principal gives a positive debt service and rate, and a non-negative cost |
| Engine.CostScalesWithPrincipal | src/calculator.test.ts:168-172 | multiplying the principal by `c` multiplies the debt service, the rate and the cost by `c` |
| Engine.DoublingPrincipalDoublesCost | src/calculator.test.ts:168-172 | doubling the principal exactly doubles the annual cost |
| Engine.LowValueHomeIsFullyExempt | src/calculator.test.ts:96-103 | a $10,000 home with the homeowner and senior exemptions has zero adjusted EAV and zero cost, whatever the bond |
| Engine.HomeownerExample430000 | src/calculator.test.ts:76-89 | a $430,000 home with the homeowner exemption has assessed value 43,000, equalized value 130,526.5, exemptions 10,000 and adjusted EAV 120,526.5 exactly |
| Engine.ExemptionSavesAmountTimesBondRate | src/calculator.test.ts:136-162 | for any bond, while the home stays taxed, checking an exemption saves exactly its amount times the implied rate |
| Engine.DefaultBondExample | src/calculator.test.ts:4-8 | the default bond ($100M, 30 years, 4.45 %) is a valid bond, and with it the $430,000 homeowner example has adjusted EAV 120,526.5 |
| Engine.HomeownerExemptionSaving | src/calculator.test.ts:136-141 | while the home stays taxed, the homeowner exemption saves exactly 10,000 times the implied rate |
| Engine.CostRisesWithRate | src/calculator.test.ts:179-183 | for a positive principal and a taxed home, a higher interest rate strictly raises the debt service and the cost |
| Engine.CostFallsWithTerm | src/calculator.test.ts:185-188 | for a positive principal and a taxed home, a longer term strictly lowers the debt service and the cost |
| Engine.TotalDebtServiceRisesWithTerm | src/calculator.test.ts:185-190 | with interest and a positive principal, a longer term strictly raises the debt service times the term |

## Left out

- Floating point: the source computes in IEEE-754 doubles with `Math.pow`. The model is exact rational arithmetic, so rounding is not modelled, and neither are the `toBeCloseTo` tolerances.
- The tests that pin dollar figures for the default $100M, 4.45 %, 30-year bond are not modelled: the annual debt service between 6.05M and 6.15M, the implied rate of about 0.2584 %, the five example homes, and the approximate savings per exemption. The Park District test, `pmt(40_000_000, 0.0435, 20)` between 3M and 3.25M (src/calculator.test.ts:38-44), is not modelled either. These tests need the numeric values of 1.0445^30 and 1.0435^20, which the verifier does not evaluate. The exact relations behind them are modelled.
- Negative rates, and terms below one year: `Pmt` and `Calculate` require a term of at least one year and a non-negative rate (`ValidBond`). The source accepts any number there. For a negative rate it computes a value, and for a zero term it divides by zero.
- Terms are whole years (`nat`): the source's `years` is any number.
- `Math.max` with `-0` or `NaN` arguments has no counterpart among the reals.
- The React user interface (`src/App.tsx`, `src/components/`): sliders, text parsing, formatting and the comparison table. It only calls `calculate` and displays the result.
- The code has no district-valuation input and no invalid-parameter result. The implied rate always divides by the fixed `oakParkTotalEAV` constant (src/calculator.ts:8, :74), and the model does the same.
- Negative principals and market values are not rejected, just as in the code. They flow through the arithmetic. The non-negativity contracts are stated for non-negative inputs (`AssessedValue`, `EqualizedValue`, `Apportion`, `PmtSign`).
- Calculator.Pmt: it has no postcondition of its own. Its meaning is stated by `PmtSign`, `PmtAmortizes`, `PmtPresentValue`, `PmtZeroRate` and `PmtScalesWithPrincipal`.
- Calculator.Calculate: it has no postcondition of its own. Its properties are the `Engine` lemmas, which go through `Apportion`.
- Engine.PositivePrincipalCostsNonNegative: the annual cost is only non-negative, not positive, because a fully exempt home pays nothing.
