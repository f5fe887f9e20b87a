/** One month of a payment plan: the `PaymentPeriod` record and its
    `monetize` step, which quantizes every money field to cents in place. */
module PaymentPeriods {
  import opened Money

  /** The contents of a `PaymentPeriod` record at one moment. */
  datatype Period = Period(
    month: int,
    startingBalance: real,
    fixedPayment: real,
    interestPayment: real,
    principalPayment: real,
    endingBalance: real,
    totalInterest: real)

  /** What a freshly created record holds: month 1 and every amount zero. */
  const DefaultPeriod := Period(1, 0.0, 0.0, 0.0, 0.0, 0.0, 0.0)

  /** Every money field of the record is a whole number of cents. */
  ghost predicate IsMonetized(p: Period) {
    IsCents(p.startingBalance) && IsCents(p.fixedPayment) && IsCents(p.interestPayment)
    && IsCents(p.principalPayment) && IsCents(p.endingBalance) && IsCents(p.totalInterest)
  }

  /** Each money field is at most half a cent from the same field of `p`. */
  ghost predicate WithinHalfCent(q: Period, p: Period) {
    Dist(q.startingBalance, p.startingBalance) <= 0.005
    && Dist(q.fixedPayment, p.fixedPayment) <= 0.005
    && Dist(q.interestPayment, p.interestPayment) <= 0.005
    && Dist(q.principalPayment, p.principalPayment) <= 0.005
    && Dist(q.endingBalance, p.endingBalance) <= 0.005
    && Dist(q.totalInterest, p.totalInterest) <= 0.005
  }

  /** The record after `monetize`. */
  function Monetized(p: Period): Period {
    Period(p.month, Round2(p.startingBalance), Round2(p.fixedPayment), Round2(p.interestPayment),
           Round2(p.principalPayment), Round2(p.endingBalance), Round2(p.totalInterest))
  }

  /** `monetize` leaves the month alone and moves each money field to a whole
      number of cents at most half a cent away. */
  lemma MonetizedCents(p: Period)
    ensures Monetized(p).month == p.month
    ensures IsMonetized(Monetized(p))
    ensures WithinHalfCent(Monetized(p), p)
  {
  }

  /** A monetized record is a fixed point of `monetize`. */
  lemma MonetizedOfMonetized(p: Period)
    requires IsMonetized(p)
    ensures Monetized(p) == p
  {
    Round2OfCents(p.startingBalance);
    Round2OfCents(p.fixedPayment);
    Round2OfCents(p.interestPayment);
    Round2OfCents(p.principalPayment);
    Round2OfCents(p.endingBalance);
    Round2OfCents(p.totalInterest);
  }

  /** Applying `monetize` twice gives what applying it once gives. */
  lemma MonetizedIdempotent(p: Period)
    ensures Monetized(Monetized(p)) == Monetized(p)
  {
    MonetizedOfMonetized(Monetized(p));
  }

  /** A record whose every amount is 123.1234567 monetizes to 123.12 throughout. */
  lemma MonetizeSample(month: int)
    ensures var x := 123.1234567;
      Monetized(Period(month, x, x, x, x, x, x)) == Period(month, 123.12, 123.12, 123.12, 123.12, 123.12, 123.12)
  {
    Round2Sample();
  }

  /** The mutable record the payment plan fills in, one per month. */
  class PaymentPeriod {
    var month: int
    var startingBalance: real
    var fixedPayment: real
    var interestPayment: real
    var principalPayment: real
    var endingBalance: real
    var totalInterest: real

    /** The record's current contents. */
    function Value(): Period
      reads this
    {
      Period(month, startingBalance, fixedPayment, interestPayment, principalPayment, endingBalance, totalInterest)
    }

    constructor ()
      ensures Value() == DefaultPeriod
    {
      month, startingBalance, fixedPayment, interestPayment := 1, 0.0, 0.0, 0.0;
      principalPayment, endingBalance, totalInterest := 0.0, 0.0, 0.0;
    }

    /** `monetize`: quantizes each money field in place and returns the record itself. */
    method Monetize() returns (self: PaymentPeriod)
      modifies this
      ensures self == this
      ensures Value() == Monetized(old(Value()))
      ensures IsMonetized(Value())
    {
      MonetizedCents(Value());
      startingBalance := Round2(startingBalance);
      fixedPayment := Round2(fixedPayment);
      interestPayment := Round2(interestPayment);
      principalPayment := Round2(principalPayment);
      endingBalance := Round2(endingBalance);
      totalInterest := Round2(totalInterest);
      self := this;
    }
  }
}
