/** The payment plan of a validated loan: what `payment_plan` emits, as a
    function of the loan and its fixed payment, the properties of that plan,
    and the loop that builds it record by record. */
module Schedule {
  import opened Money
  import opened LoanValidation
  import opened Amortization
  import opened PaymentPeriods

  /** Month `m` (counted from 1) as the loop computes it, before `monetize`:
      the running balance carried in, its interest, and the running interest. */
  function RawPeriod(principal: real, rate: real, payment: real, m: nat): Period
    requires m >= 1
  {
    var start := BalanceAfter(principal, rate, payment, m - 1);
    var interest := start * rate;
    Period(m, start, payment, interest, payment - interest, start - (payment - interest),
           InterestSumAfter(principal, rate, payment, m))
  }

  /** The equations each month satisfies before `monetize`: interest on the
      balance carried in, principal paid is payment less interest, the balance
      carried out is the balance in less principal paid, and the running interest
      grows by this month's interest. The first month starts from the principal. */
  lemma RawPeriodEquations(principal: real, rate: real, payment: real, m: nat)
    requires m >= 1
    ensures var p := RawPeriod(principal, rate, payment, m);
      && p.month == m
      && p.fixedPayment == payment
      && p.interestPayment == p.startingBalance * rate
      && p.principalPayment == p.fixedPayment - p.interestPayment
      && p.endingBalance == p.startingBalance - p.principalPayment
      && p.totalInterest == InterestSumAfter(principal, rate, payment, m - 1) + p.interestPayment
      && (m == 1 ==> p.startingBalance == principal)
  {
  }

  /** The unrounded records of the whole term. */
  function RawPlan(t: LoanTerms, payment: real): (s: seq<Period>)
    requires ValidTerms(t)
    ensures |s| == NumPeriods(t.termYears)
  {
    seq(NumPeriods(t.termYears), i requires 0 <= i =>
      RawPeriod(t.principal, PeriodicRate(t.interestRate), payment, i + 1))
  }

  /** The emitted plan: one monetized record per month, months 1..N in order. */
  function Plan(t: LoanTerms, payment: real): (s: seq<Period>)
    requires ValidTerms(t)
    ensures |s| == NumPeriods(t.termYears)
    ensures forall i :: 0 <= i < |s| ==> s[i].month == i + 1
  {
    var raw := RawPlan(t, payment);
    seq(|raw|, i requires 0 <= i < |raw| => Monetized(raw[i]))
  }

  /** Every emitted money field is whole cents, within half a cent of the
      unrounded value the loop computed for it. */
  lemma PlanMonetized(t: LoanTerms, payment: real, i: nat)
    requires ValidTerms(t) && i < NumPeriods(t.termYears)
    ensures IsMonetized(Plan(t, payment)[i])
    ensures WithinHalfCent(Plan(t, payment)[i], RawPlan(t, payment)[i])
  {
    MonetizedCents(RawPlan(t, payment)[i]);
  }

  /** Sum of the interest fields of some records. */
  function SumInterest(s: seq<Period>): real {
    if s == [] then 0.0 else SumInterest(s[..|s| - 1]) + s[|s| - 1].interestPayment
  }

  /** The running interest the loop keeps is the sum of the interest of the
      months so far. */
  lemma {:induction false} RunningInterestIsSum(t: LoanTerms, payment: real, k: nat)
    requires ValidTerms(t) && k <= NumPeriods(t.termYears)
    ensures InterestSumAfter(t.principal, PeriodicRate(t.interestRate), payment, k)
      == SumInterest(RawPlan(t, payment)[..k])
  {
    if k > 0 {
      var raw := RawPlan(t, payment);
      RunningInterestIsSum(t, payment, k - 1);
      assert raw[..k][..k - 1] == raw[..k - 1];
    }
  }

  /** The first record starts from the principal, quantized to cents. */
  lemma PlanFirstStart(t: LoanTerms, payment: real)
    requires ValidTerms(t)
    ensures Plan(t, payment)[0].startingBalance == Round2(t.principal)
  {
  }

  /** Each record's ending balance is the next record's starting balance:
      both quantize the same unrounded running balance. */
  lemma PlanCarryForward(t: LoanTerms, payment: real, i: nat)
    requires ValidTerms(t) && i + 1 < NumPeriods(t.termYears)
    ensures Plan(t, payment)[i].endingBalance == Plan(t, payment)[i + 1].startingBalance
  {
    var rate := PeriodicRate(t.interestRate);
    assert RawPlan(t, payment)[i].endingBalance == BalanceAfter(t.principal, rate, payment, i + 1);
  }

  /** Every record carries the same fixed payment, quantized. */
  lemma PlanFixedPayment(t: LoanTerms, payment: real, i: nat)
    requires ValidTerms(t) && i < NumPeriods(t.termYears)
    ensures Plan(t, payment)[i].fixedPayment == Round2(payment)
  {
  }

  /** Each record's total interest quantizes the sum of the unrounded interest
      of months 1..i+1; it is not a sum of the quantized interest fields. */
  lemma PlanTotalInterest(t: LoanTerms, payment: real, i: nat)
    requires ValidTerms(t) && i < NumPeriods(t.termYears)
    ensures Plan(t, payment)[i].totalInterest == Round2(SumInterest(RawPlan(t, payment)[..i + 1]))
  {
    RunningInterestIsSum(t, payment, i + 1);
  }

  /** Before quantizing, every month's interest is positive when the payment
      is the annuity payment, because the balance stays positive until the end. */
  lemma PlanInterestPositive(t: LoanTerms, i: nat)
    requires ValidTerms(t) && i < NumPeriods(t.termYears)
    ensures RawPlan(t, FixedPayment(t))[i].interestPayment > 0.0
  {
    var rate := PeriodicRate(t.interestRate);
    if i > 0 {
      BalanceDecreasing(t, i - 1);
    }
    var b := BalanceAfter(t.principal, rate, FixedPayment(t), i);
    assert b > 0.0;
    assert RawPlan(t, FixedPayment(t))[i].interestPayment == b * rate;
  }

  /** With the annuity payment, the emitted total interest never decreases. */
  lemma {:induction false} PlanTotalInterestMonotone(t: LoanTerms, i: nat, j: nat)
    requires ValidTerms(t) && i <= j < NumPeriods(t.termYears)
    ensures Plan(t, FixedPayment(t))[i].totalInterest <= Plan(t, FixedPayment(t))[j].totalInterest
    decreases j
  {
    if i < j {
      var A, rate := FixedPayment(t), PeriodicRate(t.interestRate);
      PlanTotalInterestMonotone(t, i, j - 1);
      PlanInterestPositive(t, j);
      assert InterestSumAfter(t.principal, rate, A, j) < InterestSumAfter(t.principal, rate, A, j + 1);
      Round2Monotone(InterestSumAfter(t.principal, rate, A, j), InterestSumAfter(t.principal, rate, A, j + 1));
    }
  }

  /** The balances and interest that the loop carries fit together: interest
      paid so far is the payments made less the principal repaid. */
  lemma PlanInterestAccounts(t: LoanTerms, payment: real, i: nat)
    requires ValidTerms(t) && i < NumPeriods(t.termYears)
    ensures var p := RawPlan(t, payment)[i];
      p.totalInterest == (i + 1) as real * payment - (t.principal - p.endingBalance)
  {
    InterestIdentity(t.principal, PeriodicRate(t.interestRate), payment, i + 1);
  }

  /** `[PaymentPeriod() for _ in range(n)]`: `n` distinct fresh records,
      each holding the defaults. */
  method NewPeriods(n: nat) returns (periods: array<PaymentPeriod>)
    ensures fresh(periods) && periods.Length == n
    ensures forall j :: 0 <= j < n ==> fresh(periods[j]) && periods[j].Value() == DefaultPeriod
    ensures forall i, j :: 0 <= i < j < n ==> periods[i] != periods[j]
  {
    var blank: seq<PaymentPeriod> := [];
    while |blank| < n
      invariant |blank| <= n
      invariant forall j :: 0 <= j < |blank| ==> fresh(blank[j]) && blank[j].Value() == DefaultPeriod
      invariant forall i, j :: 0 <= i < j < |blank| ==> blank[i] != blank[j]
    {
      var p := new PaymentPeriod();
      blank := blank + [p];
    }
    periods := new PaymentPeriod[n](i requires 0 <= i < n => blank[i]);
  }

  /** One pass of the loop body before `monetize`: given the unrounded balance
      and running interest carried into month `monthNum`, fills in that month's
      record and gives back the balance and running interest to carry out. */
  method RecordMonth(periodObj: PaymentPeriod, monthNum: nat, previousBalance: real,
                     rollingSumInterest: real, principal: real, payment: real, rate: real)
    returns (balance: real, interestSoFar: real)
    requires monthNum >= 1
    requires previousBalance == BalanceAfter(principal, rate, payment, monthNum - 1)
    requires rollingSumInterest == InterestSumAfter(principal, rate, payment, monthNum - 1)
    modifies periodObj
    ensures periodObj.Value() == RawPeriod(principal, rate, payment, monthNum)
    ensures balance == BalanceAfter(principal, rate, payment, monthNum)
    ensures interestSoFar == InterestSumAfter(principal, rate, payment, monthNum)
  {
    periodObj.month := monthNum;
    periodObj.startingBalance := previousBalance;
    periodObj.fixedPayment := payment;
    periodObj.interestPayment := previousBalance * rate;
    periodObj.principalPayment := payment - periodObj.interestPayment;

    balance := previousBalance - periodObj.principalPayment;
    periodObj.endingBalance := balance;

    interestSoFar := rollingSumInterest + periodObj.interestPayment;
    periodObj.totalInterest := interestSoFar;
  }

  /** The body of `payment_plan`: walks the months in order over freshly
      allocated records, carrying the unrounded balance and running interest,
      filling in and monetizing one record per month. */
  method BuildPlan(t: LoanTerms, payment: real) returns (plan: array<PaymentPeriod>)
    requires ValidTerms(t)
    ensures fresh(plan) && forall i :: 0 <= i < plan.Length ==> fresh(plan[i])
    ensures plan.Length == NumPeriods(t.termYears)
    ensures forall i :: 0 <= i < plan.Length ==> plan[i].Value() == Plan(t, payment)[i]
    ensures forall i, j :: 0 <= i < j < plan.Length ==> plan[i] != plan[j]
  {
    var n := NumPeriods(t.termYears);
    plan := NewPeriods(n);

    var rate := PeriodicRate(t.interestRate);
    var previousBalance := t.principal;
    var rollingSumInterest := 0.0;
    var monthNum := 1;
    while monthNum <= n
      invariant 1 <= monthNum <= n + 1
      invariant forall j :: 0 <= j < n ==> fresh(plan[j])
      invariant forall i, j :: 0 <= i < j < n ==> plan[i] != plan[j]
      invariant previousBalance == BalanceAfter(t.principal, rate, payment, monthNum - 1)
      invariant rollingSumInterest == InterestSumAfter(t.principal, rate, payment, monthNum - 1)
      invariant forall j :: 0 <= j < monthNum - 1 ==>
        plan[j].Value() == Monetized(RawPeriod(t.principal, rate, payment, j + 1))
    {
      var periodObj := plan[monthNum - 1];
      previousBalance, rollingSumInterest :=
        RecordMonth(periodObj, monthNum, previousBalance, rollingSumInterest, t.principal, payment, rate);
      var monetized := periodObj.Monetize();
      plan[monthNum - 1] := monetized;
      monthNum := monthNum + 1;
    }
    assert forall i :: 0 <= i < n ==> Plan(t, payment)[i] == Monetized(RawPeriod(t.principal, rate, payment, i + 1));
  }
}
