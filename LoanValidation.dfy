/** Field validation of a `Loan`.
    Each field has its own validator; the data-binding layer runs all three, in
    declaration order, and rejects the loan with every failure it collected. */
module LoanValidation {

  datatype Result<T, E> = Ok(value: T) | Err(error: E)

  /** The violated constraints, one per validator. */
  datatype ValidationError = InvalidPrincipal | InvalidInterestRate | InvalidTermYears

  /** The three input fields of a loan. `interestRate` is a yearly percentage. */
  datatype LoanTerms = LoanTerms(principal: real, interestRate: real, termYears: int)

  /** The constraints a validated loan meets. */
  predicate ValidTerms(t: LoanTerms) {
    t.principal > 0.0 && t.interestRate > 0.0 && 0 < t.termYears <= 30
  }

  /** `valid_principal`: accepts a positive principal unchanged. */
  function ValidPrincipal(principal: real): (r: Result<real, ValidationError>)
    ensures r.Ok? <==> principal > 0.0
    ensures r.Ok? ==> r.value == principal
    ensures r.Err? ==> r.error == InvalidPrincipal
  {
    if principal > 0.0 then Ok(principal) else Err(InvalidPrincipal)
  }

  /** `valid_interest_rate`: accepts a positive rate unchanged. */
  function ValidInterestRate(interestRate: real): (r: Result<real, ValidationError>)
    ensures r.Ok? <==> interestRate > 0.0
    ensures r.Ok? ==> r.value == interestRate
    ensures r.Err? ==> r.error == InvalidInterestRate
  {
    if interestRate > 0.0 then Ok(interestRate) else Err(InvalidInterestRate)
  }

  /** `valid_term_years`: accepts a term of 1 to 30 years unchanged. */
  function ValidTermYears(termYears: int): (r: Result<int, ValidationError>)
    ensures r.Ok? <==> 1 <= termYears <= 30
    ensures r.Ok? ==> r.value == termYears
    ensures r.Err? ==> r.error == InvalidTermYears
  {
    if 0 < termYears <= 30 then Ok(termYears) else Err(InvalidTermYears)
  }

  /** The failure of one validator as a list of zero or one errors. */
  function Failures<T>(r: Result<T, ValidationError>): seq<ValidationError> {
    if r.Ok? then [] else [r.error]
  }

  /** Runs the three validators and either builds the loan or reports every
      failure, in field order. */
  function Validate(principal: real, interestRate: real, termYears: int)
    : (r: Result<LoanTerms, seq<ValidationError>>)
    ensures r.Ok? <==> ValidTerms(LoanTerms(principal, interestRate, termYears))
    ensures r.Ok? ==> r.value == LoanTerms(principal, interestRate, termYears)
    ensures r.Err? ==> r.error != []
    ensures r.Err? ==> (InvalidPrincipal in r.error <==> principal <= 0.0)
    ensures r.Err? ==> (InvalidInterestRate in r.error <==> interestRate <= 0.0)
    ensures r.Err? ==> (InvalidTermYears in r.error <==> !(1 <= termYears <= 30))
  {
    var p := ValidPrincipal(principal);
    var i := ValidInterestRate(interestRate);
    var t := ValidTermYears(termYears);
    if p.Ok? && i.Ok? && t.Ok? then Ok(LoanTerms(p.value, i.value, t.value))
    else Err(Failures(p) + Failures(i) + Failures(t))
  }

  /** A loan of all zeros is rejected, and all three fields are reported. */
  lemma ValidateZeros()
    ensures Validate(0.0, 0.0, 0) == Err([InvalidPrincipal, InvalidInterestRate, InvalidTermYears])
  {
    assert Failures(ValidPrincipal(0.0)) == [InvalidPrincipal];
    assert Failures(ValidInterestRate(0.0)) == [InvalidInterestRate];
    assert Failures(ValidTermYears(0)) == [InvalidTermYears];
    assert [InvalidPrincipal] + [InvalidInterestRate] + [InvalidTermYears]
      == [InvalidPrincipal, InvalidInterestRate, InvalidTermYears];
  }

  /** Each error is reported at most once, and never out of field order. */
  lemma ValidateErrorOrder(principal: real, interestRate: real, termYears: int)
    ensures var r := Validate(principal, interestRate, termYears);
      r.Err? ==> forall i, j :: 0 <= i < j < |r.error| ==> Rank(r.error[i]) < Rank(r.error[j])
  {
  }

  /** Position of a field in the declaration order of `Loan`. */
  function Rank(e: ValidationError): nat {
    match e
    case InvalidPrincipal => 0
    case InvalidInterestRate => 1
    case InvalidTermYears => 2
  }
}
