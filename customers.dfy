/**
 * The Customer record and its monthly-payment calculation
 * (class Customer in MortgageCalculator/Program.cs).
 *
 * Amounts and rates are exact reals rather than IEEE doubles, and the
 * payment is None exactly where the real-number formula divides by zero.
 */
module Customers {
  import opened Wrappers

  /** C#'s 32-bit `int`. */
  newtype int32 = x: int | -0x8000_0000 <= x < 0x8000_0000

  /** A C# `int` multiplication result: the exact product reduced into 32 bits (unchecked context). */
  function Wrap32(x: int): (r: int32)
    ensures -0x8000_0000 <= x < 0x8000_0000 ==> r as int == x
    ensures (r as int - x) % 0x1_0000_0000 == 0
  {
    ((x + 0x8000_0000) % 0x1_0000_0000 - 0x8000_0000) as int32
  }

  /** A prospect: name, principal, annual interest rate in percent, and term in years. */
  datatype Customer = Customer(name: string, totalLoan: real, interestRate: real, totalYears: int32)

  const MONTHS_IN_A_YEAR: int := 12

  /** The largest term whose month count `totalYears * 12` fits in a 32-bit int. */
  const MAX_YEARS: int := 178956970

  /** InterestRate / MONTHS_IN_A_YEAR / 100: the monthly rate as a fraction of one. */
  function MonthlyInterestRate(c: Customer): (r: real)
    ensures r * 1200.0 == c.interestRate
  {
    c.interestRate / MONTHS_IN_A_YEAR as real / 100.0
  }

  /** `TotalYears * 12` evaluated as a 32-bit int: the month count while it fits, wrapped otherwise. */
  function NumberOfPayments(c: Customer): (n: int32)
    ensures -MAX_YEARS <= c.totalYears as int <= MAX_YEARS ==> n as int == c.totalYears as int * MONTHS_IN_A_YEAR
    ensures (n as int - c.totalYears as int * MONTHS_IN_A_YEAR) % 0x1_0000_0000 == 0
  {
    Wrap32(c.totalYears as int * 12)
  }

  /** How many times the accumulator loop multiplies: the month count, or none when it is not positive. */
  function Iterations(c: Customer): (n: nat)
    ensures n < 0x8000_0000
    ensures n == 0 <==> NumberOfPayments(c) <= 0
  {
    if NumberOfPayments(c) > 0 then NumberOfPayments(c) as nat else 0
  }

  /** x raised to the n-th power. */
  function Pow(x: real, n: nat): real
  {
    if n == 0 then 1.0 else Pow(x, n - 1) * x
  }

  /**
   * The value the accumulator `pow` reaches: (1 + r) to the power of the
   * iteration count. It stays 1 when the loop does not run or the rate is 0,
   * and exceeds 1 when the loop runs at a positive rate.
   */
  function Growth(c: Customer): (g: real)
    ensures Iterations(c) == 0 || c.interestRate == 0.0 ==> g == 1.0
    ensures Iterations(c) > 0 && c.interestRate > 0.0 ==> g > 1.0
  {
    var x, n := 1.0 + MonthlyInterestRate(c), Iterations(c);
    if c.interestRate == 0.0 then PowOfOne(n); Pow(x, n)
    else if n > 0 && c.interestRate > 0.0 then PowAboveOne(x, n); Pow(x, n)
    else Pow(x, n)
  }

  /**
   * The closed form TotalLoan * r / (1 - 1 / pow): the payment that, times
   * the denominator, equals one month's interest on the whole loan.
   */
  function Annuity(loan: real, r: real, pow: real): (payment: real)
    requires pow != 0.0 && pow != 1.0
    ensures payment * (1.0 - 1.0 / pow) == loan * r
  {
    loan * r / (1.0 - 1.0 / pow)
  }

  /**
   * The payment of a customer. Dividing by `pow` and by the denominator is
   * undefined over the reals when pow is 0 or 1; the model gives None there.
   */
  function MonthlyPayment(c: Customer): (payment: Option<real>)
    ensures payment.Some? <==> Growth(c) != 0.0 && Growth(c) != 1.0
    ensures payment.Some? ==> payment.value * (1.0 - 1.0 / Growth(c)) == c.totalLoan * MonthlyInterestRate(c)
  {
    var pow := Growth(c);
    if pow == 0.0 || pow == 1.0 then None
    else Some(Annuity(c.totalLoan, MonthlyInterestRate(c), pow))
  }

  /** Customer.CalculateMonthlyPayment: builds (1 + r)^n by repeated multiplication, then applies the annuity formula. */
  method CalculateMonthlyPayment(c: Customer) returns (payment: Option<real>)
    ensures payment == MonthlyPayment(c)
  {
    var monthlyInterestRate := c.interestRate / MONTHS_IN_A_YEAR as real / 100.0;
    var numberOfPayments := Wrap32(c.totalYears as int * 12);
    var pow := 1.0;
    var i := 0;
    while i < numberOfPayments as int
      invariant 0 <= i <= Iterations(c)
      invariant pow == Pow(1.0 + monthlyInterestRate, i)
    {
      pow := pow * (1.0 + monthlyInterestRate);
      i := i + 1;
    }
    if pow == 0.0 || pow == 1.0 {
      payment := None;
    } else {
      payment := Some(Annuity(c.totalLoan, monthlyInterestRate, pow));
    }
  }

  /** For a term whose month count does not overflow, the loop runs TotalYears * 12 times. */
  lemma GrowthOverMonths(c: Customer)
    requires 0 <= c.totalYears as int <= MAX_YEARS
    ensures Iterations(c) == c.totalYears as int * MONTHS_IN_A_YEAR
    ensures Growth(c) == Pow(1.0 + MonthlyInterestRate(c), c.totalYears as nat * MONTHS_IN_A_YEAR)
  {
  }

  /** Every power of a base above 1 with a positive exponent is above 1. */
  lemma {:induction false} PowAboveOne(x: real, n: nat)
    requires x > 1.0 && n > 0
    ensures Pow(x, n) > 1.0
  {
    if n > 1 {
      PowAboveOne(x, n - 1);
      assert Pow(x, n) == Pow(x, n - 1) * x;
    }
  }

  /** Every power of 1 is 1. */
  lemma {:induction false} PowOfOne(n: nat)
    ensures Pow(1.0, n) == 1.0
  {
    if n > 0 {
      PowOfOne(n - 1);
    }
  }

  /**
   * A positive rate and a positive month count (wrapped or not): pow exceeds 1,
   * the denominator lies strictly between 0 and 1, and the payment exists,
   * is positive for a positive loan, and exceeds the first month's interest.
   */
  lemma PositiveRateAndTerm(c: Customer)
    requires c.interestRate > 0.0
    requires NumberOfPayments(c) > 0
    ensures Growth(c) > 1.0
    ensures 0.0 < 1.0 - 1.0 / Growth(c) < 1.0
    ensures MonthlyPayment(c).Some?
    ensures c.totalLoan > 0.0 ==> MonthlyPayment(c).value > c.totalLoan * MonthlyInterestRate(c) > 0.0
  {
    var pow := Growth(c);
    var d := 1.0 - 1.0 / pow;
    assert 0.0 < 1.0 / pow < 1.0;
    if c.totalLoan > 0.0 {
      var interest := c.totalLoan * MonthlyInterestRate(c);
      assert interest > 0.0;
      var p := MonthlyPayment(c).value;
      assert p * d == interest;
      assert p > 0.0;
      assert p - interest == p * (1.0 - d);
      assert p * (1.0 - d) > 0.0;
    }
  }

  /** A zero rate has no special case: pow stays 1, the denominator is exactly 0, and the formula is undefined. */
  lemma ZeroRateHasNoPayment(c: Customer)
    requires c.interestRate == 0.0
    ensures Growth(c) == 1.0 && 1.0 - 1.0 / Growth(c) == 0.0
    ensures MonthlyPayment(c) == None
  {
  }

  /** Whenever `TotalYears * 12` comes out zero or negative, the loop runs no iteration and the formula is undefined. */
  lemma NoMonthsHasNoPayment(c: Customer)
    requires NumberOfPayments(c) <= 0
    ensures Iterations(c) == 0 && Growth(c) == 1.0
    ensures MonthlyPayment(c) == None
  {
  }

  /** A term of zero or fewer years (above the wrap-around point) runs no iteration, so the formula is undefined. */
  lemma NonPositiveTermHasNoPayment(c: Customer)
    requires -MAX_YEARS <= c.totalYears as int <= 0
    ensures Iterations(c) == 0 && Growth(c) == 1.0
    ensures MonthlyPayment(c) == None
  {
    NoMonthsHasNoPayment(c);
  }

  /** One year beyond MAX_YEARS, `TotalYears * 12` wraps to a negative count: the loop runs no iteration. */
  lemma OverflowingTermHasNoPayment(c: Customer)
    requires c.totalYears as int == MAX_YEARS + 1
    ensures NumberOfPayments(c) < 0
    ensures MonthlyPayment(c) == None
  {
    NoMonthsHasNoPayment(c);
  }

  /**
   * A far larger term can wrap to a small positive count: 357913942 years
   * gives 8 months, and with a positive rate that yields an eight-month payment.
   */
  lemma WrappedTermIsShort(c: Customer)
    requires c.totalYears as int == 357913942
    ensures NumberOfPayments(c) == 8 && Iterations(c) == 8
    ensures c.interestRate > 0.0 ==> MonthlyPayment(c).Some?
  {
    assert c.totalYears as int * 12 == 0x1_0000_0000 + 8;
    if c.interestRate > 0.0 {
      PositiveRateAndTerm(c);
    }
  }

  /** Outstanding balance after `months` payments of `payment` at monthly rate `r`, interest added first. */
  function Balance(loan: real, r: real, payment: real, months: nat): real
  {
    if months == 0 then loan else Balance(loan, r, payment, months - 1) * (1.0 + r) - payment
  }

  /** Balance(k) * r == loan * r * (1 + r)^k - payment * ((1 + r)^k - 1), stated without division. */
  lemma {:induction false} BalanceClosedForm(loan: real, r: real, payment: real, k: nat)
    ensures Balance(loan, r, payment, k) * r == loan * r * Pow(1.0 + r, k) - payment * (Pow(1.0 + r, k) - 1.0)
  {
    if k > 0 {
      BalanceClosedForm(loan, r, payment, k - 1);
      var b := Balance(loan, r, payment, k - 1);
      var x := 1.0 + r;
      var p := Pow(x, k - 1);
      assert Pow(x, k) == p * x;
      assert Balance(loan, r, payment, k) == b * x - payment;
      assert (b * x - payment) * r == (b * r) * x - payment * r;
      assert (b * r) * x == (loan * r * p) * x - (payment * (p - 1.0)) * x;
      assert (loan * r * p) * x == loan * r * (p * x);
      assert (payment * (p - 1.0)) * x + payment * r == payment * (p * x - 1.0);
    }
  }

  /**
   * The payment retires the loan: paying it every month for the whole
   * term leaves a balance of exactly zero.
   */
  lemma PaymentAmortizesLoan(c: Customer)
    requires MonthlyPayment(c).Some?
    ensures Balance(c.totalLoan, MonthlyInterestRate(c), MonthlyPayment(c).value, Iterations(c)) == 0.0
  {
    var r := MonthlyInterestRate(c);
    var p := MonthlyPayment(c).value;
    var pow := Growth(c);
    var n := Iterations(c);
    var b := Balance(c.totalLoan, r, p, n);
    BalanceClosedForm(c.totalLoan, r, p, n);
    assert b * r == c.totalLoan * r * pow - p * (pow - 1.0);
    assert r != 0.0;
    assert p * (pow - 1.0) == (p * (1.0 - 1.0 / pow)) * pow;
    assert p * (pow - 1.0) == c.totalLoan * r * pow;
    assert b * r == 0.0;
  }
}
