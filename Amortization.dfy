/** The arithmetic of a fixed-rate, monthly-compounding loan: the monthly
    rate, the annuity payment and the unrounded running balance and interest
    that the payment plan carries from month to month.  All of it is exact. */
module Amortization {
  import opened LoanValidation

  /** `interest_rate / 100 / 12`: the yearly percentage as a monthly fraction. */
  function PeriodicRate(interestRate: real): (r: real)
    ensures r * 1200.0 == interestRate
    ensures interestRate > 0.0 ==> r > 0.0
  {
    interestRate / 100.0 / 12.0
  }

  /** `term_years * 12`: the number of monthly payments. */
  function NumPeriods(termYears: int): (n: int)
    ensures 1 <= termYears <= 30 ==> 12 <= n <= 360
  {
    termYears * 12
  }

  /** `x ** n` for a whole exponent. */
  function Pow(x: real, n: nat): real {
    if n == 0 then 1.0 else x * Pow(x, n - 1)
  }

  lemma {:induction false} PowAdd(x: real, a: nat, b: nat)
    ensures Pow(x, a + b) == Pow(x, a) * Pow(x, b)
  {
    if b > 0 {
      PowAdd(x, a, b - 1);
      calc {
        Pow(x, a + b);
        x * Pow(x, a + b - 1);
        x * (Pow(x, a) * Pow(x, b - 1));
        Pow(x, a) * (x * Pow(x, b - 1));
      }
    }
  }

  /** Powers of a base above one are at least one and grow by a factor of it. */
  lemma {:induction false} PowStep(x: real, n: nat)
    requires x > 1.0
    ensures 1.0 <= Pow(x, n) < Pow(x, n + 1)
  {
    if n > 0 {
      PowStep(x, n - 1);
    }
    var p := Pow(x, n);
    assert Pow(x, n + 1) == x * p;
    assert (x - 1.0) * p > 0.0;
  }

  /** Powers of a base above one grow strictly with the exponent. */
  lemma {:induction false} PowIncreasing(x: real, j: nat, k: nat)
    requires x > 1.0 && j < k
    ensures 1.0 <= Pow(x, j) < Pow(x, k)
    decreases k
  {
    PowStep(x, k - 1);
    if j + 1 < k {
      PowIncreasing(x, j, k - 1);
    }
  }

  /** Products of non-negative bounds bound the product. */
  lemma MulBounds(loA: real, a: real, hiA: real, loB: real, b: real, hiB: real)
    requires 0.0 <= loA <= a <= hiA && 0.0 <= loB <= b <= hiB
    ensures loA * loB <= a * b <= hiA * hiB
  {
    assert loA * loB <= a * loB <= a * b;
    assert a * b <= hiA * b <= hiA * hiB;
  }

  /** Bounds on `x^a` and `x^b` give bounds on `x^(a+b)`. */
  lemma PowProductBounds(x: real, a: nat, b: nat, loA: real, hiA: real, loB: real, hiB: real, lo: real, hi: real)
    requires 0.0 <= loA <= Pow(x, a) <= hiA && 0.0 <= loB <= Pow(x, b) <= hiB
    requires lo <= loA * loB && hiA * hiB <= hi
    ensures lo <= Pow(x, a + b) <= hi
  {
    PowAdd(x, a, b);
    MulBounds(loA, Pow(x, a), hiA, loB, Pow(x, b), hiB);
  }

  /** The growth factor `(1 + r) ** n` of a validated loan over its whole term,
      computed exactly; it exceeds one for every positive rate. */
  function Growth(t: LoanTerms): (g: real)
    requires ValidTerms(t)
    ensures g > 1.0
  {
    var g := Pow(1.0 + PeriodicRate(t.interestRate), NumPeriods(t.termYears));
    PowIncreasing(1.0 + PeriodicRate(t.interestRate), 0, NumPeriods(t.termYears));
    g
  }

  /** `_payment_per_period_calc`: the annuity payment `P r (1+r)^n / ((1+r)^n - 1)`.
      In exact arithmetic a validated loan has a positive denominator, and the
      payment is more than the first month's interest, hence positive. */
  function FixedPayment(t: LoanTerms): (a: real)
    requires ValidTerms(t)
    ensures a * (Growth(t) - 1.0) == t.principal * PeriodicRate(t.interestRate) * Growth(t)
    ensures a > t.principal * PeriodicRate(t.interestRate) > 0.0
  {
    var P := t.principal;
    var r := PeriodicRate(t.interestRate);
    var g := Growth(t);
    var numerator := P * r * g;
    var denominator := g - 1.0;
    assert numerator > P * r * denominator by {
      assert P * r > 0.0;
    }
    numerator / denominator
  }

  /** The unrounded balance after `k` months: each month the balance falls by
      the payment less that month's interest on the balance. */
  function BalanceAfter(principal: real, rate: real, payment: real, k: nat): real {
    if k == 0 then principal
    else
      var start := BalanceAfter(principal, rate, payment, k - 1);
      start - (payment - start * rate)
  }

  /** The unrounded interest paid over the first `k` months. */
  function InterestSumAfter(principal: real, rate: real, payment: real, k: nat): real {
    if k == 0 then 0.0
    else InterestSumAfter(principal, rate, payment, k - 1)
         + BalanceAfter(principal, rate, payment, k - 1) * rate
  }

  /** The balance in closed form: the principal grown by `k` months of interest,
      less the `k` payments each grown from the month it was made. */
  lemma {:induction false} BalanceClosedForm(principal: real, rate: real, payment: real, k: nat)
    ensures BalanceAfter(principal, rate, payment, k) * rate
      == principal * rate * Pow(1.0 + rate, k) - payment * (Pow(1.0 + rate, k) - 1.0)
  {
    if k > 0 {
      var q := 1.0 + rate;
      var b := BalanceAfter(principal, rate, payment, k - 1);
      var w := Pow(q, k - 1);
      BalanceClosedForm(principal, rate, payment, k - 1);
      assert b * rate == principal * rate * w - payment * (w - 1.0);
      assert BalanceAfter(principal, rate, payment, k) == b * q - payment;
      calc {
        BalanceAfter(principal, rate, payment, k) * rate;
        (b * q - payment) * rate;
        q * (b * rate) - payment * rate;
        q * (principal * rate * w - payment * (w - 1.0)) - payment * rate;
        principal * rate * (q * w) - payment * (q * w - 1.0);
      }
    }
  }

  /** Interest paid so far is what was paid in, less the principal repaid. */
  lemma {:induction false} InterestIdentity(principal: real, rate: real, payment: real, k: nat)
    ensures InterestSumAfter(principal, rate, payment, k)
      == k as real * payment - (principal - BalanceAfter(principal, rate, payment, k))
  {
    if k > 0 {
      InterestIdentity(principal, rate, payment, k - 1);
    }
  }

  /** Under exact arithmetic the annuity payment is the one and only fixed
      payment that brings the balance to zero after the last month. */
  lemma FullyAmortizes(t: LoanTerms, payment: real)
    requires ValidTerms(t)
    ensures var rate := PeriodicRate(t.interestRate);
      (BalanceAfter(t.principal, rate, payment, NumPeriods(t.termYears)) == 0.0)
        <==> payment == FixedPayment(t)
  {
    var P, rate, n := t.principal, PeriodicRate(t.interestRate), NumPeriods(t.termYears);
    BalanceClosedForm(P, rate, payment, n);
    SolvedBalanceZero(BalanceAfter(P, rate, payment, n), P, rate, Growth(t), payment, FixedPayment(t));
  }

  /** Algebra for FullyAmortizes: the final balance is `(A - payment)(g - 1) / r`. */
  lemma SolvedBalanceZero(b: real, P: real, rate: real, g: real, payment: real, A: real)
    requires rate > 0.0 && g > 1.0
    requires b * rate == P * rate * g - payment * (g - 1.0)
    requires A * (g - 1.0) == P * rate * g
    ensures b == 0.0 <==> payment == A
  {
    assert b * rate == (A - payment) * (g - 1.0);
    SignOfProduct(b, rate);
    SignOfProduct(A - payment, g - 1.0);
  }

  /** With the annuity payment, the balance after `k` months is the principal
      scaled by `(g - (1+r)^k) / (g - 1)`, where `g` is the growth over the term. */
  lemma RemainingBalance(t: LoanTerms, k: nat)
    requires ValidTerms(t)
    ensures BalanceAfter(t.principal, PeriodicRate(t.interestRate), FixedPayment(t), k) * (Growth(t) - 1.0)
        == t.principal * (Growth(t) - Pow(1.0 + PeriodicRate(t.interestRate), k))
  {
    var P, rate, A := t.principal, PeriodicRate(t.interestRate), FixedPayment(t);
    BalanceClosedForm(P, rate, A, k);
    ScaledBalance(BalanceAfter(P, rate, A, k), P, rate, A, Growth(t), Pow(1.0 + rate, k));
  }

  /** Algebra for RemainingBalance. */
  lemma ScaledBalance(b: real, P: real, rate: real, A: real, g: real, w: real)
    requires rate > 0.0
    requires b * rate == P * rate * w - A * (w - 1.0)
    requires A * (g - 1.0) == P * rate * g
    ensures b * (g - 1.0) == P * (g - w)
  {
    calc {
      b * (g - 1.0) * rate;
      (b * rate) * (g - 1.0);
      (P * rate * w - A * (w - 1.0)) * (g - 1.0);
      P * rate * w * (g - 1.0) - (w - 1.0) * (A * (g - 1.0));
      P * rate * w * (g - 1.0) - (w - 1.0) * (P * rate * g);
      P * (g - w) * rate;
    }
  }

  /** With the annuity payment the balance falls every month, never drops
      below zero, and stays above zero until the last month. */
  lemma BalanceDecreasing(t: LoanTerms, k: nat)
    requires ValidTerms(t) && k < NumPeriods(t.termYears)
    ensures var rate := PeriodicRate(t.interestRate);
      0.0 <= BalanceAfter(t.principal, rate, FixedPayment(t), k + 1)
          < BalanceAfter(t.principal, rate, FixedPayment(t), k)
    ensures var rate := PeriodicRate(t.interestRate);
      k + 1 < NumPeriods(t.termYears) ==> 0.0 < BalanceAfter(t.principal, rate, FixedPayment(t), k + 1)
  {
    var P, rate, A, n := t.principal, PeriodicRate(t.interestRate), FixedPayment(t), NumPeriods(t.termYears);
    var q, g := 1.0 + rate, Growth(t);
    var w0, w1 := Pow(q, k), Pow(q, k + 1);
    var b0, b1 := BalanceAfter(P, rate, A, k), BalanceAfter(P, rate, A, k + 1);
    RemainingBalance(t, k);
    assert b0 * (g - 1.0) == P * (g - w0);
    RemainingBalance(t, k + 1);
    assert b1 * (g - 1.0) == P * (g - w1);
    PowIncreasing(q, k, k + 1);
    assert g == Pow(q, n);
    if k + 1 < n {
      PowIncreasing(q, k + 1, n);
      assert w1 < g;
    } else {
      assert w1 == g;
    }
    ScaledOrder(b0, b1, P, g, w0, w1);
  }

  /** Algebra for BalanceDecreasing. */
  lemma ScaledOrder(b0: real, b1: real, P: real, g: real, w0: real, w1: real)
    requires P > 0.0 && g > 1.0 && w0 < w1 <= g
    requires b0 * (g - 1.0) == P * (g - w0)
    requires b1 * (g - 1.0) == P * (g - w1)
    ensures 0.0 <= b1 < b0
    ensures w1 < g ==> 0.0 < b1
  {
    assert (b0 - b1) * (g - 1.0) == P * (w1 - w0);
    SignOfProduct(P, w1 - w0);
    SignOfProduct(b0 - b1, g - 1.0);
    SignOfProduct(g - w1, P);
    SignOfProduct(b1, g - 1.0);
  }

  /** The sign of a product with a positive factor is the sign of the other factor. */
  lemma SignOfProduct(x: real, y: real)
    requires y > 0.0
    ensures x > 0.0 <==> x * y > 0.0
    ensures x == 0.0 <==> x * y == 0.0
  {
  }
}
