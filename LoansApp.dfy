/** The refactored module's copy of the engine: the loan is an immutable
    validated value, and `payment_plan` computes the fixed payment itself
    before walking the months. */
module LoansApp {
  import opened Money
  import opened LoanValidation
  import opened Amortization
  import opened PaymentPeriods
  import opened Schedule

  /** `payment_plan`: computes the annuity payment at the top, then fills one
      monetized record per month. */
  method PaymentPlan(loan: LoanTerms) returns (plan: array<PaymentPeriod>)
    requires ValidTerms(loan)
    ensures fresh(plan) && forall i :: 0 <= i < plan.Length ==> fresh(plan[i])
    ensures plan.Length == NumPeriods(loan.termYears)
    ensures forall i :: 0 <= i < plan.Length ==> plan[i].Value() == Plan(loan, FixedPayment(loan))[i]
    ensures forall i, j :: 0 <= i < j < plan.Length ==> plan[i] != plan[j]
  {
    var fixedPaymentPerPeriod := FixedPayment(loan);
    plan := BuildPlan(loan, fixedPaymentPerPeriod);
  }

  /** What the plan of a validated loan promises about record `i`: its month,
      the one fixed payment, the carried-forward balance, the running interest
      quantized once, and a total interest that never decreases. */
  lemma PaymentPlanFacts(loan: LoanTerms, i: nat)
    requires ValidTerms(loan) && i < NumPeriods(loan.termYears)
    ensures var plan, A := Plan(loan, FixedPayment(loan)), FixedPayment(loan);
      && plan[i].month == i + 1
      && plan[i].fixedPayment == Round2(A)
      && plan[0].startingBalance == Round2(loan.principal)
      && (i + 1 < |plan| ==> plan[i].endingBalance == plan[i + 1].startingBalance)
      && plan[i].totalInterest == Round2(SumInterest(RawPlan(loan, A)[..i + 1]))
      && (i > 0 ==> plan[i - 1].totalInterest <= plan[i].totalInterest)
  {
    var A := FixedPayment(loan);
    PlanFixedPayment(loan, A, i);
    PlanFirstStart(loan, A);
    if i + 1 < NumPeriods(loan.termYears) {
      PlanCarryForward(loan, A, i);
    }
    PlanTotalInterest(loan, A, i);
    if i > 0 {
      PlanTotalInterestMonotone(loan, i - 1, i);
    }
  }

  /** A loan of 250000 at 3.625% over 30 years pays 1140.13 a month. */
  lemma SamplePayment()
    ensures var loan := LoanTerms(250000.0, 3.625, 30);
      ValidTerms(loan) && Round2(FixedPayment(loan)) == 1140.13
  {
    var loan := LoanTerms(250000.0, 3.625, 30);
    var g, A, Pr := Growth(loan), FixedPayment(loan), loan.principal * PeriodicRate(loan.interestRate);
    assert A * (g - 1.0) == Pr * g;
    assert Pr == 18125.0 / 24.0;
    SampleGrowth();
    PaymentFromGrowth(A, g, Pr);
  }

  /** `(1 + 3.625/1200) ** 360`, bounded by repeated squaring. */
  lemma SampleGrowth()
    ensures var loan := LoanTerms(250000.0, 3.625, 30);
      ValidTerms(loan) && 2.96198817133347 <= Growth(loan) <= 2.96198817135360
  {
    var loan := LoanTerms(250000.0, 3.625, 30);
    var q := 1.0 + PeriodicRate(loan.interestRate);
    assert q == 9629.0 / 9600.0;
    assert Pow(q, 1) == q;
    PowProductBounds(q, 1, 1, 1.00302083333333, 1.00302083333334, 1.00302083333333, 1.00302083333334, 1.00605079210068, 1.00605079210071);
    PowProductBounds(q, 2, 2, 1.00605079210068, 1.00605079210071, 1.00605079210068, 1.00605079210071, 1.01213819628640, 1.01213819628647);
    PowProductBounds(q, 4, 4, 1.01213819628640, 1.01213819628647, 1.01213819628640, 1.01213819628647, 1.02442372838188, 1.02442372838203);
    PowProductBounds(q, 8, 8, 1.02442372838188, 1.02442372838203, 1.02442372838188, 1.02442372838203, 1.04944397527183, 1.04944397527214);
    PowProductBounds(q, 16, 16, 1.04944397527183, 1.04944397527214, 1.04944397527183, 1.04944397527214, 1.10133265723434, 1.10133265723500);
    PowProductBounds(q, 32, 32, 1.10133265723434, 1.10133265723500, 1.10133265723434, 1.10133265723500, 1.21293362189085, 1.21293362189231);
    PowProductBounds(q, 64, 64, 1.21293362189085, 1.21293362189231, 1.21293362189085, 1.21293362189231, 1.47120797111325, 1.47120797111680);
    PowProductBounds(q, 128, 128, 1.47120797111325, 1.47120797111680, 1.47120797111325, 1.47120797111680, 2.16445289426716, 2.16445289427762);
    PowProductBounds(q, 256, 64, 2.16445289426716, 2.16445289427762, 1.21293362189085, 1.21293362189231, 2.62533768845559, 2.62533768847145);
    PowProductBounds(q, 320, 32, 2.62533768845559, 2.62533768847145, 1.10133265723434, 1.10133265723500, 2.89137013256425, 2.89137013258346);
    PowProductBounds(q, 352, 8, 2.89137013256425, 2.89137013258346, 1.02442372838188, 1.02442372838203, 2.96198817133347, 2.96198817135360);
    assert NumPeriods(loan.termYears) == 360;
    assert Growth(loan) == Pow(q, 360);
  }

  /** The last step of SamplePayment: bounds on the growth factor pin the
      payment to within half a cent of 1140.13. */
  lemma PaymentFromGrowth(A: real, g: real, Pr: real)
    requires Pr == 18125.0 / 24.0
    requires 2.96198817133347 <= g <= 2.96198817135360
    requires A * (g - 1.0) == Pr * g
    ensures Round2(A) == 1140.13
  {
    assert (A - 1140.125) * (g - 1.0) == Pr * g - 1140.125 * (g - 1.0);
    assert (1140.135 - A) * (g - 1.0) == 1140.135 * (g - 1.0) - Pr * g;
    SignOfProduct(A - 1140.125, g - 1.0);
    SignOfProduct(1140.135 - A, g - 1.0);
    assert Dist(114013 as real, A * 100.0) < 0.5;
    RoundHalfEvenUnique(A * 100.0, 114013);
  }
}
