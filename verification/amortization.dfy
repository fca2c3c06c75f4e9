/**
 What the level payment computed by `Calculator.Pmt` means, and how it
 moves with the bond's terms.

 Two reference notions, each defined independently of the payment formula:
 - the remaining balance of the loan after `k` yearly payments (a year's
   interest is added, then the payment is taken off), together with the
   future-value factor that sums what one dollar a year grows to;
 - the annuity factor, the present value of one dollar paid at the end of
   each year of the term.
 `Pmt` is the one level payment that leaves a zero balance at the end of
 the term, and the payment whose present value over the term equals the
 principal.

 Proofs that mix the payment formula with other nonlinear facts are split
 in two: a core lemma that speaks of the payment as a plain number `p`, and
 a lemma about `Pmt` that only instantiates it.
 */
module Amortization {
  import opened Calculator

  /**
   What is still owed after `k` years on a loan of `principal` at `rate`
   when `payment` is paid at the end of each year.
   */
  function Balance(principal: real, rate: real, payment: real, k: nat): real
  {
    if k == 0 then principal
    else Balance(principal, rate, payment, k - 1) * (1.0 + rate) - payment
  }

  /** What one dollar paid at the end of each of `k` years has grown to after `k` years. */
  function FutureValueFactor(rate: real, k: nat): (f: real)
    requires rate >= 0.0
    ensures k >= 1 ==> f >= 1.0
  {
    if k == 0 then 0.0 else FutureValueFactor(rate, k - 1) * (1.0 + rate) + 1.0
  }

  /** The discount applied to a payment made at the end of year `k`. */
  function Discount(rate: real, k: nat): (d: real)
    requires rate >= 0.0
    ensures d > 0.0
  {
    1.0 / Pow(1.0 + rate, k)
  }

  /** The present value of one dollar paid at the end of each of `n` years. */
  function AnnuityFactor(rate: real, n: nat): (a: real)
    requires rate >= 0.0
    ensures n >= 1 ==> a > 0.0
    ensures n == 0 ==> a == 0.0
  {
    if n == 0 then 0.0 else AnnuityFactor(rate, n - 1) + Discount(rate, n)
  }

  /** A level `payment` a year over `n` years at `rate` is worth `principal` today. */
  predicate PaysOff(payment: real, principal: real, rate: real, n: nat) {
    rate >= 0.0 && Repays(payment, principal, AnnuityFactor(rate, n))
  }

  /** A level `payment` a year over `n` years at `rate` grows to what `principal` grows to. */
  predicate GrowsTo(payment: real, principal: real, rate: real, n: nat) {
    rate >= 0.0 && payment * FutureValueFactor(rate, n) == principal * Pow(1.0 + rate, n)
  }

  /** A level `payment` a year, worth `factor` dollars today per dollar, is worth `principal`. */
  predicate Repays(payment: real, principal: real, factor: real) {
    payment * factor == principal
  }

  /** The total repaid over the term: the annual payment times the number of years. */
  function TotalRepaid(principal: real, rate: real, years: nat): (total: real)
    requires years >= 1 && rate >= 0.0
    ensures principal > 0.0 ==> total > 0.0
  {
    Pmt(principal, rate, years) * years as real
  }

  /* ---------- Algebra on plain reals ---------- */

  lemma {:induction false} ReciprocalFalls(a: real, b: real)
    requires 0.0 < a < b
    ensures 1.0 / b < 1.0 / a
  {
    assert (1.0 / a) * a == 1.0;
    assert (1.0 / b) * b == 1.0;
  }

  lemma {:induction false} ProductGrows(p: real, q: real)
    requires p > 0.0 && q > 1.0
    ensures q * p > p
  {
  }

  lemma {:induction false} ProductMonotone(a: real, b: real, c: real, d: real)
    requires 0.0 < a < b && 0.0 < c < d
    ensures a * c < b * d
  {
    assert a * c < b * c;
    assert b * c < b * d;
  }

  /** One step of the geometric series. */
  lemma {:induction false} GeometricStep(r: real, p: real, a: real)
    requires r > 0.0 && p > 0.0 && a * r == 1.0 - 1.0 / p
    ensures (a + 1.0 / ((1.0 + r) * p)) * r == 1.0 - 1.0 / ((1.0 + r) * p)
  {
    var q := 1.0 + r;
    var w := 1.0 / (q * p);
    assert w * (q * p) == 1.0;
    assert 1.0 / p == q * w;
    assert (a + w) * r == 1.0 - q * w + w * r;
  }

  /** (P * r / (1 - d)) * a == P when a * r == 1 - d > 0. */
  lemma {:induction false} CancelRate(principal: real, r: real, a: real, d: real)
    requires r > 0.0 && a * r == 1.0 - d && 1.0 - d > 0.0
    ensures (principal * r) / (1.0 - d) * a == principal
  {
    var x := (principal * r) / (1.0 - d);
    assert x * (1.0 - d) == principal * r;
    assert x * (a * r) == principal * r;
    assert (x * a) * r == principal * r;
  }

  /** (P * r / (1 - 1/x)) * f == P * x when f * r == x - 1 and x > 1. */
  lemma {:induction false} CancelGrowth(principal: real, r: real, x: real, f: real)
    requires r > 0.0 && x > 1.0 && f * r == x - 1.0
    ensures (principal * r) / (1.0 - 1.0 / x) * f == principal * x
  {
    var d := 1.0 - 1.0 / x;
    assert d * x == x - 1.0;
    var y := (principal * r) / d;
    assert y * d == principal * r;
    assert y * f * r == y * (x - 1.0);
    assert y * (x - 1.0) == y * d * x;
    assert y * f * r == principal * x * r;
  }

  /** b + x * f == v and p * f == v with f > 0: b vanishes exactly when x is p. */
  lemma {:induction false} ZeroGap(b: real, x: real, p: real, f: real, v: real)
    requires f > 0.0 && b + x * f == v && p * f == v
    ensures b == 0.0 <==> x == p
  {
    assert b == (p - x) * f;
  }

  lemma {:induction false} ScaleStep(principal: real, c: real, a: real, p1: real, p2: real)
    requires a > 0.0 && Repays(p1, principal, a) && Repays(p2, c * principal, a)
    ensures p2 == c * p1
  {
    assert (p2 - c * p1) * a == 0.0;
  }

  lemma {:induction false} QuotientScales(principal: real, c: real, x: real)
    requires x > 0.0
    ensures (c * principal) / x == c * (principal / x)
  {
  }

  /** A larger annuity factor means a smaller payment for the same positive principal. */
  lemma {:induction false} PaymentFallsWithFactor(principal: real, a1: real, a2: real, p1: real, p2: real)
    requires principal > 0.0 && 0.0 < a1 < a2 && Repays(p1, principal, a1) && Repays(p2, principal, a2)
    ensures p2 < p1
  {
    assert p2 > 0.0;
    assert p2 * a1 < p2 * a2;
  }

  lemma {:induction false} PaymentRisesAsFactorFalls(principal: real, a1: real, a2: real, p1: real, p2: real)
    requires principal > 0.0 && 0.0 < a2 < a1 && Repays(p1, principal, a1) && Repays(p2, principal, a2)
    ensures p1 < p2
  {
    assert p1 > 0.0;
    assert p1 * a2 < p1 * a1;
  }

  /**
   With p1 * a == P and p2 * (a + d) == P, the k-year total p1 * k is below
   the (k + 1)-year total p2 * (k + 1) as soon as a > k * d.
   */
  lemma {:induction false} TotalRepaidStep(principal: real, k: real, k1: real, a: real, d: real, a1: real,
                        p1: real, p2: real)
    requires principal > 0.0 && k > 0.0 && k1 == k + 1.0 && d > 0.0 && a > k * d
    requires a1 == a + d && Repays(p1, principal, a) && Repays(p2, principal, a1)
    ensures p1 * k < p2 * k1
  {
    assert a > 0.0 && a1 > 0.0;
    assert (p2 * k1) * (a * a1) == k1 * principal * a;
    assert (p1 * k) * (a * a1) == k * principal * a1;
    assert (p2 * k1 - p1 * k) * (a * a1) == principal * (a - k * d);
    assert principal * (a - k * d) > 0.0;
    assert a * a1 > 0.0;
  }

  /* ---------- Powers ---------- */

  lemma {:induction false} PowOne(k: nat)
    ensures Pow(1.0, k) == 1.0
  {
    if k > 0 {
      PowOne(k - 1);
    }
  }

  /** One more factor above one makes the power strictly larger. */
  lemma {:induction false} PowStep(q: real, i: nat)
    requires q > 1.0
    ensures Pow(q, i) < Pow(q, i + 1)
  {
    ProductGrows(Pow(q, i), q);
  }

  lemma {:induction false} PowStrictlyIncreasing(q: real, k: nat, j: nat)
    requires q > 1.0 && k < j
    ensures Pow(q, k) < Pow(q, j)
    decreases j
  {
    PowStep(q, j - 1);
    if k < j - 1 {
      PowStrictlyIncreasing(q, k, j - 1);
    }
  }

  lemma {:induction false} PowStrictlyIncreasingInBase(q1: real, q2: real, k: nat)
    requires 0.0 < q1 < q2 && k >= 1
    ensures Pow(q1, k) < Pow(q2, k)
    decreases k
  {
    if k > 1 {
      PowStrictlyIncreasingInBase(q1, q2, k - 1);
      ProductMonotone(q1, q2, Pow(q1, k - 1), Pow(q2, k - 1));
    }
  }

  /* ---------- The balance and the future-value factor ---------- */

  /** The balance plus what the payments have grown to equals what the principal has grown to. */
  lemma {:induction false} BalanceClosedForm(principal: real, rate: real, payment: real, k: nat)
    requires rate >= 0.0
    ensures Balance(principal, rate, payment, k) + payment * FutureValueFactor(rate, k)
      == principal * Pow(1.0 + rate, k)
  {
    if k > 0 {
      BalanceClosedForm(principal, rate, payment, k - 1);
    }
  }

  /** The geometric-series closed form: f(k) * rate == (1 + rate)^k - 1. */
  lemma {:induction false} FutureValueFactorClosedForm(rate: real, k: nat)
    requires rate >= 0.0
    ensures FutureValueFactor(rate, k) * rate == Pow(1.0 + rate, k) - 1.0
  {
    if k > 0 {
      FutureValueFactorClosedForm(rate, k - 1);
    }
  }

  /** With no interest, `k` one-dollar payments add up to `k` dollars. */
  lemma {:induction false} FutureValueFactorZeroRate(k: nat)
    ensures FutureValueFactor(0.0, k) == k as real
  {
    if k > 0 {
      FutureValueFactorZeroRate(k - 1);
    }
  }

  /* ---------- The annuity factor ---------- */

  /** With no interest, `n` one-dollar payments are worth `n` dollars today. */
  lemma {:induction false} AnnuityFactorZeroRate(n: nat)
    ensures AnnuityFactor(0.0, n) == n as real
  {
    if n > 0 {
      AnnuityFactorZeroRate(n - 1);
      PowOne(n);
    }
  }

  /** The geometric-series closed form: a(n) * rate == 1 - (1 + rate)^-n. */
  lemma {:induction false} AnnuityFactorClosedForm(rate: real, n: nat)
    requires rate > 0.0
    ensures AnnuityFactor(rate, n) * rate == 1.0 - Discount(rate, n)
  {
    if n > 0 {
      AnnuityFactorClosedForm(rate, n - 1);
      AnnuityFactorClosedFormStep(rate, n);
    }
  }

  lemma {:induction false} AnnuityFactorClosedFormStep(rate: real, n: nat)
    requires rate > 0.0 && n > 0
    requires AnnuityFactor(rate, n - 1) * rate == 1.0 - Discount(rate, n - 1)
    ensures AnnuityFactor(rate, n) * rate == 1.0 - Discount(rate, n)
  {
    var p := Pow(1.0 + rate, n - 1);
    var a := AnnuityFactor(rate, n - 1);
    assert a * rate == 1.0 - 1.0 / p;
    assert Pow(1.0 + rate, n) == (1.0 + rate) * p;
    assert Discount(rate, n) == 1.0 / ((1.0 + rate) * p);
    assert AnnuityFactor(rate, n) == a + Discount(rate, n);
    GeometricStep(rate, p, a);
  }

  /** The annuity factor one year on. */
  lemma {:induction false} AnnuityFactorNext(rate: real, n: nat)
    requires rate >= 0.0
    ensures AnnuityFactor(rate, n + 1) == AnnuityFactor(rate, n) + Discount(rate, n + 1)
  {
  }

  /** Every extra year adds a strictly positive discounted dollar. */
  lemma {:induction false} AnnuityFactorGrowsWithTerm(rate: real, n: nat, m: nat)
    requires rate >= 0.0 && n < m
    ensures AnnuityFactor(rate, n) < AnnuityFactor(rate, m)
    decreases m
  {
    if n < m - 1 {
      AnnuityFactorGrowsWithTerm(rate, n, m - 1);
    }
  }

  /** A higher rate discounts every later dollar more heavily. */
  lemma {:induction false} AnnuityFactorFallsWithRate(r1: real, r2: real, n: nat)
    requires 0.0 <= r1 < r2 && n >= 1
    ensures AnnuityFactor(r2, n) < AnnuityFactor(r1, n)
    decreases n
  {
    if n > 1 {
      AnnuityFactorFallsWithRate(r1, r2, n - 1);
    }
    PowStrictlyIncreasingInBase(1.0 + r1, 1.0 + r2, n);
    ReciprocalFalls(Pow(1.0 + r1, n), Pow(1.0 + r2, n));
  }

  /** With interest, a dollar paid later is worth strictly less today. */
  lemma {:induction false} DiscountFallsWithYear(rate: real, n: nat, j: nat)
    requires rate > 0.0 && n < j
    ensures Discount(rate, j) < Discount(rate, n)
  {
    PowStrictlyIncreasing(1.0 + rate, n, j);
    ReciprocalFalls(Pow(1.0 + rate, n), Pow(1.0 + rate, j));
  }

  /** With interest, the first `n` dollars are worth more than `n` dollars paid in year `j > n`. */
  lemma {:induction false} AnnuityFactorAboveLaterDiscount(rate: real, n: nat, j: nat)
    requires rate > 0.0 && 1 <= n < j
    ensures AnnuityFactor(rate, n) > n as real * Discount(rate, j)
    decreases n
  {
    DiscountFallsWithYear(rate, n, j);
    if n > 1 {
      AnnuityFactorAboveLaterDiscount(rate, n - 1, j);
    }
  }

  /* ---------- What the payment means ---------- */

  /** The payment times the future-value factor is what the principal grows to. */
  lemma {:induction false} PmtTimesFutureValueFactor(principal: real, rate: real, years: nat)
    requires years >= 1 && rate >= 0.0
    ensures GrowsTo(Pmt(principal, rate, years), principal, rate, years)
  {
    if rate == 0.0 {
      PmtGrowsZeroRate(principal, rate, years);
    } else {
      PmtGrowsPositiveRate(principal, rate, years);
    }
  }

  lemma {:induction false} PmtGrowsZeroRate(principal: real, rate: real, years: nat)
    requires years >= 1 && rate == 0.0
    ensures GrowsTo(Pmt(principal, rate, years), principal, rate, years)
  {
    FutureValueFactorZeroRate(years);
    PowOne(years);
  }

  lemma {:induction false} PmtGrowsPositiveRate(principal: real, rate: real, years: nat)
    requires years >= 1 && rate > 0.0
    ensures GrowsTo(Pmt(principal, rate, years), principal, rate, years)
  {
    FutureValueFactorClosedForm(rate, years);
    CancelGrowth(principal, rate, Pow(1.0 + rate, years), FutureValueFactor(rate, years));
  }

  /** A payment `p` with p * f(n) == P * (1 + rate)^n clears the loan, and no other does. */
  lemma {:induction false} AmortizingPaymentIsUnique(principal: real, rate: real, years: nat, payment: real, p: real)
    requires years >= 1 && rate >= 0.0
    requires GrowsTo(p, principal, rate, years)
    ensures Balance(principal, rate, payment, years) == 0.0 <==> payment == p
  {
    BalanceClosedForm(principal, rate, payment, years);
    ZeroGap(Balance(principal, rate, payment, years), payment, p,
      FutureValueFactor(rate, years), principal * Pow(1.0 + rate, years));
  }

  /**
   A level payment clears the loan at the end of the term exactly when it
   is the payment `Pmt` computes: `Pmt` fully amortizes the loan, and no
   other level payment does.
   */
  lemma {:induction false} PmtAmortizes(principal: real, rate: real, years: nat, payment: real)
    requires years >= 1 && rate >= 0.0
    ensures Balance(principal, rate, payment, years) == 0.0
      <==> payment == Pmt(principal, rate, years)
  {
    PmtTimesFutureValueFactor(principal, rate, years);
    AmortizingPaymentIsUnique(principal, rate, years, payment, Pmt(principal, rate, years));
  }

  /** The present value of the level payments over the term equals the principal. */
  lemma {:induction false} PmtPresentValue(principal: real, rate: real, years: nat)
    requires years >= 1 && rate >= 0.0
    ensures Pmt(principal, rate, years) * AnnuityFactor(rate, years) == principal
    ensures PaysOff(Pmt(principal, rate, years), principal, rate, years)
  {
    if rate == 0.0 {
      PmtPresentValueZeroRate(principal, years);
    } else {
      PmtPresentValuePositiveRate(principal, rate, years);
    }
  }

  lemma {:induction false} PmtPresentValueZeroRate(principal: real, years: nat)
    requires years >= 1
    ensures Pmt(principal, 0.0, years) * AnnuityFactor(0.0, years) == principal
  {
    AnnuityFactorZeroRate(years);
  }

  lemma {:induction false} PmtPresentValuePositiveRate(principal: real, rate: real, years: nat)
    requires years >= 1 && rate > 0.0
    ensures Pmt(principal, rate, years) * AnnuityFactor(rate, years) == principal
  {
    AnnuityFactorClosedForm(rate, years);
    CancelRate(principal, rate, AnnuityFactor(rate, years), Discount(rate, years));
  }

  /** With no interest the payment is the principal split evenly over the years. */
  lemma {:induction false} PmtZeroRate(principal: real, years: nat)
    requires years >= 1
    ensures Pmt(principal, 0.0, years) * years as real == principal
    ensures Pmt(300000.0, 0.0, 30) == 10000.0
  {
  }

  /** The payment is linear in the principal. */
  lemma {:induction false} PmtScalesWithPrincipal(principal: real, c: real, rate: real, years: nat)
    requires years >= 1 && rate >= 0.0
    ensures Pmt(c * principal, rate, years) == c * Pmt(principal, rate, years)
  {
    if rate == 0.0 {
      QuotientScales(principal, c, years as real);
    } else {
      PmtPresentValue(principal, rate, years);
      PmtPresentValue(c * principal, rate, years);
      PaymentScales(principal, c, rate, years, Pmt(principal, rate, years), Pmt(c * principal, rate, years));
    }
  }

  /** Payments worth `principal` and `c * principal` over the same term: the second is `c` times the first. */
  lemma {:induction false} PaymentScales(principal: real, c: real, rate: real, years: nat, p1: real, p2: real)
    requires years >= 1
    requires PaysOff(p1, principal, rate, years) && PaysOff(p2, c * principal, rate, years)
    ensures p2 == c * p1
  {
    ScaleStep(principal, c, AnnuityFactor(rate, years), p1, p2);
  }

  /* ---------- Sensitivity to term and rate ---------- */

  /** A longer term strictly lowers the annual payment on a positive principal. */
  lemma {:induction false} PmtFallsWithTerm(principal: real, rate: real, n: nat, m: nat)
    requires principal > 0.0 && rate >= 0.0 && 1 <= n < m
    ensures Pmt(principal, rate, m) < Pmt(principal, rate, n)
  {
    PmtPresentValue(principal, rate, n);
    PmtPresentValue(principal, rate, m);
    PaymentFallsWithTerm(principal, rate, n, m, Pmt(principal, rate, n), Pmt(principal, rate, m));
  }

  /** Payments `p1`, `p2` worth `principal` over `n` and `m > n` years: the longer one is smaller. */
  lemma {:induction false} PaymentFallsWithTerm(principal: real, rate: real, n: nat, m: nat, p1: real, p2: real)
    requires principal > 0.0 && 1 <= n < m
    requires PaysOff(p1, principal, rate, n) && PaysOff(p2, principal, rate, m)
    ensures p2 < p1
  {
    AnnuityFactorGrowsWithTerm(rate, n, m);
    PaymentFallsWithFactor(principal, AnnuityFactor(rate, n), AnnuityFactor(rate, m), p1, p2);
  }

  /** A higher rate strictly raises the annual payment on a positive principal. */
  lemma {:induction false} PmtRisesWithRate(principal: real, r1: real, r2: real, years: nat)
    requires principal > 0.0 && 0.0 <= r1 < r2 && years >= 1
    ensures Pmt(principal, r1, years) < Pmt(principal, r2, years)
  {
    PmtPresentValue(principal, r1, years);
    PmtPresentValue(principal, r2, years);
    PaymentRisesWithRate(principal, r1, r2, years, Pmt(principal, r1, years), Pmt(principal, r2, years));
  }

  /** Payments `p1`, `p2` worth `principal` at rates `r1 < r2`: the dearer one is larger. */
  lemma {:induction false} PaymentRisesWithRate(principal: real, r1: real, r2: real, years: nat, p1: real, p2: real)
    requires principal > 0.0 && r1 < r2 && years >= 1
    requires PaysOff(p1, principal, r1, years) && PaysOff(p2, principal, r2, years)
    ensures p1 < p2
  {
    AnnuityFactorFallsWithRate(r1, r2, years);
    PaymentRisesAsFactorFalls(principal, AnnuityFactor(r1, years), AnnuityFactor(r2, years), p1, p2);
  }

  /** With interest, one more year of payments strictly raises the total repaid. */
  lemma {:induction false} TotalRepaidRisesByOneYear(principal: real, rate: real, n: nat)
    requires principal > 0.0 && rate > 0.0 && n >= 1
    ensures TotalRepaid(principal, rate, n) < TotalRepaid(principal, rate, n + 1)
  {
    PmtPresentValue(principal, rate, n);
    PmtPresentValue(principal, rate, n + 1);
    TotalPaidRisesByOneYear(principal, rate, n, Pmt(principal, rate, n), Pmt(principal, rate, n + 1));
  }

  /**
   Payments `p1`, `p2` worth `principal` over `n` and `n + 1` years: with
   interest, `n + 1` payments of `p2` add up to more than `n` of `p1`.
   */
  lemma {:induction false} TotalPaidRisesByOneYear(principal: real, rate: real, n: nat, p1: real, p2: real)
    requires principal > 0.0 && rate > 0.0 && n >= 1
    requires PaysOff(p1, principal, rate, n) && PaysOff(p2, principal, rate, n + 1)
    ensures p1 * n as real < p2 * (n + 1) as real
  {
    AnnuityFactorAboveLaterDiscount(rate, n, n + 1);
    AnnuityFactorNext(rate, n);
    TotalRepaidStep(principal, n as real, (n + 1) as real,
      AnnuityFactor(rate, n), Discount(rate, n + 1), AnnuityFactor(rate, n + 1), p1, p2);
  }

  /** With interest, a longer term strictly raises the total repaid. */
  lemma {:induction false} TotalRepaidRisesWithTerm(principal: real, rate: real, n: nat, m: nat)
    requires principal > 0.0 && rate > 0.0 && 1 <= n < m
    ensures TotalRepaid(principal, rate, n) < TotalRepaid(principal, rate, m)
    decreases m
  {
    TotalRepaidRisesByOneYear(principal, rate, m - 1);
    if n < m - 1 {
      TotalRepaidRisesWithTerm(principal, rate, n, m - 1);
    }
  }

  /** Without interest the total repaid is the principal, whatever the term. */
  lemma {:induction false} TotalRepaidZeroRate(principal: real, years: nat)
    requires years >= 1
    ensures TotalRepaid(principal, 0.0, years) == principal
  {
    PmtZeroRate(principal, years);
  }
}
