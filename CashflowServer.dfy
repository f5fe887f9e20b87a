/** The monolithic server's copy of the engine: a `Loan` object whose
    constructor validates the fields and then stores the fixed payment, and
    whose `payment_plan` reads the stored payment. */
module CashflowServer {
  import opened LoanValidation
  import opened Amortization
  import opened PaymentPeriods
  import opened Schedule

  class Loan {
    const principal: real
    const interestRate: real
    const termYears: int
    var paymentPerPeriod: real

    /** The three validated input fields. */
    function Terms(): LoanTerms {
      LoanTerms(principal, interestRate, termYears)
    }

    /** The fields passed validation and the payment was derived from them. */
    ghost predicate Valid()
      reads this
    {
      ValidTerms(Terms()) && paymentPerPeriod == FixedPayment(Terms())
    }

    /** `__init__` after the base initializer has validated the fields: stores
        them, then computes the fixed payment once. */
    constructor (terms: LoanTerms)
      requires ValidTerms(terms)
      ensures Terms() == terms
      ensures Valid() && paymentPerPeriod > 0.0
    {
      principal := terms.principal;
      interestRate := terms.interestRate;
      termYears := terms.termYears;
      paymentPerPeriod := 0.0;
      new;
      paymentPerPeriod := FixedPayment(Terms());
    }

    /** `payment_plan`: one monetized record per month, each carrying the
        stored payment. Nothing in the loan changes. */
    method PaymentPlan() returns (plan: array<PaymentPeriod>)
      requires Valid()
      ensures fresh(plan) && forall i :: 0 <= i < plan.Length ==> fresh(plan[i])
      ensures plan.Length == NumPeriods(termYears)
      ensures forall i :: 0 <= i < plan.Length ==> plan[i].Value() == Plan(Terms(), paymentPerPeriod)[i]
      ensures forall i, j :: 0 <= i < j < plan.Length ==> plan[i] != plan[j]
    {
      plan := BuildPlan(Terms(), paymentPerPeriod);
    }
  }

  /** Constructing a `Loan` from raw fields: validation first, reporting every
      violated constraint; only a valid loan gets its payment computed. */
  method NewLoan(principal: real, interestRate: real, termYears: int)
    returns (r: Result<Loan, seq<ValidationError>>)
    ensures r.Ok? <==> ValidTerms(LoanTerms(principal, interestRate, termYears))
    ensures r.Ok? ==> fresh(r.value) && r.value.Valid()
    ensures r.Ok? ==> r.value.Terms() == LoanTerms(principal, interestRate, termYears)
    ensures r.Err? ==> Validate(principal, interestRate, termYears) == Err(r.error)
  {
    match Validate(principal, interestRate, termYears)
    case Ok(terms) =>
      var loan := new Loan(terms);
      r := Ok(loan);
    case Err(errors) =>
      r := Err(errors);
  }
}
