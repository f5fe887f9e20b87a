# Loan amortization engine

A model of the calculation engine of the `cashflow` loan server. From a loan's
principal, yearly interest rate (a percentage) and term in years, the engine:

- validates the three fields: principal above zero, rate above zero, term 1 to 30 years;
- solves the annuity formula `A = P r (1+r)^n / ((1+r)^n - 1)` for the fixed monthly
  payment, with `r = rate / 100 / 12` and `n = 12 * years`;
- walks the `n` months in order, carrying the unrounded running balance and running
  interest and filling in one `PaymentPeriod` record per month;
- calls `monetize` on each finished record, which quantizes every money field to cents.

The engine exists twice in the repository. `cashflow_server.py` computes the payment
once, in `Loan.__init__`, after validation, and stores it in `payment_per_period`.
`loans_app/models.py` recomputes it at the top of `payment_plan`. Both share the same
validators, formula, loop and `monetize`.

Modules:

- `Money`: cent quantization with half-to-even rounding, the default of Python's `decimal`.
- `LoanValidation`: the three validators and their combination into a `Result` that
  lists every failed check in field order.
- `Amortization`: monthly rate, number of payments and annuity payment. It also has the
  unrounded balance and interest recurrences, their closed forms, and full amortization.
- `PaymentPeriods`: the `PaymentPeriod` record, a class with seven mutable fields,
  and its in-place `Monetize`.
- `Schedule`:
  - `Plan`, the emitted plan as a function of the loan and the payment, with lemmas
    about the plan;
  - `BuildPlan`, the loop over a preallocated array of records, proved to produce `Plan`.
- `CashflowServer`: the `Loan` class whose constructor stores the payment, and
  `NewLoan`, which validates and then constructs.
- `LoansApp`: `payment_plan` on an immutable validated loan. It also holds the
  250000 / 3.625% / 30-year example, whose payment is 1140.13.

`Decimal` values are modelled as exact `real`s. The only rounding modelled is `quantize(Decimal('.01'))`.

Three behaviours of the code shape the plan:

- The loop carries the unrounded `previous_balance` into the next month, because
  `monetize` only rewrites the record's fields. The emitted `ending_balance[i]` and
  `starting_balance[i+1]` agree because both round the same value
  (`Schedule.PlanCarryForward`).
- The emitted `total_interest` rounds the unrounded running sum
  (`Schedule.PlanTotalInterest`). It is not a sum of the rounded interest fields.
- The first emitted starting balance is `Round2(principal)` (`Schedule.PlanFirstStart`).
  Before rounding it is the principal (`Schedule.RawPeriodEquations`).

## Model

| member | source | states |
|---|---|---|
| Money.RoundHalfEven | cashflow_server.py:27 | the integer is within 0.5 of the input, and is even on a tie |
| Money.RoundHalfEvenUnique | cashflow_server.py:27 | any integer nearer than 0.5, or at 0.5 and even, is the rounding result, so half-to-even rounding is fully determined |
| Money.RoundHalfEvenMonotone | cashflow_server.py:27 | rounding to an integer preserves order |
| Money.Round2 | cashflow_server.py:27 | `quantize(Decimal('.01'))`: whole cents, at most half a cent from the input, and an even number of cents on a tie |
| Money.Round2OfCents | cashflow_server.py:27 | an amount already in whole cents is unchanged |
| Money.Round2Idempotent | cashflow_server.py:27 | quantizing twice equals quantizing once |
| Money.Round2Monotone | cashflow_server.py:27 | quantizing preserves order |
| Money.Round2Nearest | cashflow_server.py:27 | no whole-cent amount is strictly nearer to the input than the quantized value |
| Money.Round2Sample | loans_app/tests.py:11-26 | 123.1234567 quantizes to 123.12 |
| LoanValidation.ValidPrincipal | cashflow_server.py:44-48 | accepts the principal unchanged exactly when it is positive, else a principal error |
| LoanValidation.ValidInterestRate | cashflow_server.py:50-54 | accepts the rate unchanged exactly when it is positive, else an interest-rate error |
| LoanValidation.ValidTermYears | cashflow_server.py:56-60 | accepts the term unchanged exactly when it is 1..30, else a term error |
| LoanValidation.Validate | loans_app/models.py:36-57 | a loan is built, with the fields unchanged, iff all three checks pass; otherwise the error list is non-empty and holds each field's error iff that field's check fails |
| LoanValidation.ValidateZeros | loans_app/tests.py:38-44 | principal 0, rate 0, term 0 is rejected with all three errors, in field order |
| LoanValidation.ValidateErrorOrder | loans_app/models.py:41-57 | reported errors are distinct and in field declaration order |
| Amortization.PeriodicRate | cashflow_server.py:73 | the monthly rate is the yearly percentage over 1200, and is positive for a positive rate |
| Amortization.NumPeriods | cashflow_server.py:74 | a 1..30-year term has 12..360 payments |
| Amortization.Pow | cashflow_server.py:77-78 | `x ** n` for a whole exponent; `PowAdd`, `PowStep` and `PowIncreasing` state its laws |
| Amortization.Growth | cashflow_server.py:77-78 | in exact arithmetic, `(1+r)^n > 1` for a validated loan, so the exact denominator is non-zero |
| Amortization.FixedPayment | cashflow_server.py:63-79 | in exact arithmetic the payment solves `A ((1+r)^n - 1) = P r (1+r)^n`, and exceeds the first month's interest `P r > 0`, so it is positive |
| Amortization.BalanceAfter | cashflow_server.py:85-94 | the unrounded `previous_balance` after k months: the principal, then each month less the payment net of the month's interest; its closed form is `BalanceClosedForm` |
| Amortization.InterestSumAfter | cashflow_server.py:86-97 | the unrounded `rolling_sum_interest` after k months, from 0 adding each month's interest; `InterestIdentity` and `RunningInterestIsSum` state what it equals |
| Amortization.BalanceClosedForm | cashflow_server.py:85-95 | after k months the unrounded balance satisfies `B r = P r (1+r)^k - A ((1+r)^k - 1)` |
| Amortization.InterestIdentity | cashflow_server.py:91-98 | the running interest after k months equals k payments less the principal repaid |
| Amortization.FullyAmortizes | cashflow_server.py:63-79 | in exact arithmetic the balance after n months is zero iff the payment is the annuity payment |
| Amortization.RemainingBalance | cashflow_server.py:85-95 | with the annuity payment, `B(k) (g - 1) = P (g - (1+r)^k)` where `g = (1+r)^n` |
| Amortization.BalanceDecreasing | cashflow_server.py:91-95 | with the annuity payment the balance falls strictly every month, never below zero, and stays positive before the last month |
| PaymentPeriods.Monetized | cashflow_server.py:19-28 | `monetize` as a function on record contents: each of the six money fields quantized, the month kept; `MonetizedCents` states its contract |
| PaymentPeriods.MonetizedCents | cashflow_server.py:19-28 | `monetize` leaves the month alone and puts every money field in whole cents, within half a cent of its old value |
| PaymentPeriods.MonetizedOfMonetized | cashflow_server.py:19-28 | a record already in cents is unchanged by `monetize` |
| PaymentPeriods.MonetizedIdempotent | cashflow_server.py:19-28 | `monetize` twice equals `monetize` once |
| PaymentPeriods.MonetizeSample | loans_app/tests.py:11-26 | a record with every money field 123.1234567 becomes 123.12 throughout, month unchanged |
| PaymentPeriods.PaymentPeriod.constructor | cashflow_server.py:10-17 | a new record has month 1 and every amount zero |
| PaymentPeriods.PaymentPeriod.Monetize | loans_app/models.py:19-28 | in place: the record becomes the monetized old record, all money fields in cents, and the record itself is returned |
| Schedule.RawPeriod | cashflow_server.py:88-98 | the record one loop pass writes for month m before `monetize`; `RawPeriodEquations` states its equations |
| Schedule.RawPeriodEquations | cashflow_server.py:85-98 | before rounding, month m has interest = start * r, principal paid = payment - interest, end = start - principal paid, running interest grows by this interest; month 1 starts at the principal |
| Schedule.RawPlan | cashflow_server.py:82-98 | the unrounded plan has one record per month, `12 * years` in all |
| Schedule.Plan | cashflow_server.py:82-101 | the emitted plan has `12 * years` records numbered 1..N in order |
| Schedule.PlanMonetized | cashflow_server.py:99 | every emitted money field is in cents, within half a cent of the unrounded value |
| Schedule.RunningInterestIsSum | cashflow_server.py:86-98 | the running interest after k months is the sum of the first k unrounded interest amounts |
| Schedule.PlanFirstStart | loans_app/models.py:87-91 | the first emitted starting balance is the principal rounded to cents |
| Schedule.PlanCarryForward | cashflow_server.py:94-99 | each emitted ending balance equals the next record's starting balance |
| Schedule.PlanFixedPayment | cashflow_server.py:90 | every record's fixed payment is the same payment, rounded to cents |
| Schedule.PlanTotalInterest | loans_app/models.py:99-100 | record i's total interest is the rounding of the sum of unrounded interest over months 1..i+1 |
| Schedule.PlanInterestPositive | loans_app/models.py:93 | with the annuity payment every month's unrounded interest is positive |
| Schedule.PlanTotalInterestMonotone | loans_app/models.py:99-101 | with the annuity payment the emitted total interest never decreases |
| Schedule.PlanInterestAccounts | cashflow_server.py:92-98 | unrounded total interest equals the payments made less the principal repaid |
| Schedule.NewPeriods | cashflow_server.py:82 | allocates `n` distinct fresh records, each with the defaults |
| Schedule.RecordMonth | cashflow_server.py:88-98 | one loop pass fills the record with month m's unrounded values and carries out the balance and running interest after month m |
| Schedule.BuildPlan | cashflow_server.py:82-101 | the loop yields a new array of `12 * years` new, distinct records whose contents are exactly `Plan` |
| CashflowServer.Loan.constructor | cashflow_server.py:39-41 | after validation the fields are stored unchanged and `payment_per_period` is the annuity payment, which is positive |
| CashflowServer.Loan.PaymentPlan | cashflow_server.py:81-101 | a new array of `12 * years` new, distinct records equal to `Plan` for the stored payment; the loan is not modified |
| CashflowServer.NewLoan | cashflow_server.py:31-60 | construction succeeds iff validation passes, and the new loan is then valid with the given fields; otherwise it fails with exactly the validation errors |
| LoansApp.PaymentPlan | loans_app/models.py:77-103 | computes the annuity payment at the top, then returns a new array of `12 * years` new, distinct records equal to `Plan` for that payment |
| LoansApp.PaymentPlanFacts | loans_app/models.py:83-101 | each record has month i+1 and the one rounded payment; the first starts at the rounded principal; the balance is carried forward; total interest is the rounded running sum and never decreases |
| LoansApp.SamplePayment | loans_app/tests.py:46-50 | 250000 at 3.625% over 30 years is a valid loan whose payment rounds to 1140.13 |
| LoansApp.SampleGrowth | loans_app/models.py:68-74 | for that loan `(1 + r)^360` lies in [2.96198817133347, 2.96198817135360] |
| LoansApp.PaymentFromGrowth | loans_app/tests.py:47-50 | those bounds on the growth factor put the payment within half a cent of 1140.13 |

## Left out

- Amortization.Growth: `Growth > 1` holds only in exact arithmetic. In the 28-digit
  decimal context, a positive `interest_rate` below about 6E-25 percent gives
  `r = interest_rate / 100 / 12` of at most 5E-28. Then `1 + r` rounds to exactly 1, and
  the denominator `(1 + r)**n - 1` at cashflow_server.py:78 is 0. For rates a little
  above that threshold, the rounded `1 + r` distorts the payment by much more than a cent.
- Amortization.FixedPayment: the positive payment, too, holds only in exact arithmetic. For
  the tiny positive rates above, `numerator / denominator` at cashflow_server.py:79
  raises `decimal.DivisionByZero` on a loan that passed validation: in `Loan.__init__` in
  `cashflow_server.py`, and at the top of `payment_plan` in `loans_app/models.py`. The
  model has no such error path.
- Decimal context precision: every `Decimal` operation the engine performs (`+`, `-`,
  `*`, `/` and `**`) rounds its result to the context's 28 significant digits. That
  covers the rate `interest_rate / 100 / 12`, the formula `P * r * (1 + r)**n` and its
  denominator and quotient, and in the loop the interest product
  `previous_balance * interest_per_month`, the subtraction `payment_per_period - interest`,
  `previous_balance -= ...` and `rolling_sum_interest += ...`. The model computes all of
  them exactly. `Amortization.FullyAmortizes` is about exact
  arithmetic. It is not a claim that the Python plan ends at exactly zero. The model makes
  no claim about the last emitted ending balance.
- Decimal special values (NaN, infinities, signed zero), and the `InvalidOperation`
  that `quantize` raises when the result needs more than 28 digits. The model's
  amounts are finite reals with no size limit.
- Pydantic machinery: string-to-Decimal and int coercion, error message text, and the
  kebab-case `Field(alias=...)` names. A validation failure is modelled as the list
  of failed checks.
- `monetize` finds fields by iterating over `__dict__` and picking the `Decimal` ones.
  The model names the six money fields explicitly and skips `month`. This is the set
  of fields on every record the loop fills in.
- The web layer: FastAPI routes, CORS, templates, `get_all`, the settings and controller
  files, and the front end are not part of this model.
- `async`: `payment_plan` in `loans_app/models.py` never awaits, so it is modelled as an
  ordinary method.
- Python lists become Dafny arrays of `PaymentPeriod` objects. The list slot writes
  `period_list[month_num-1] = period_obj.monetize()` are kept. They store the same object.
