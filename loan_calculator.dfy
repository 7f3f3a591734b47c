/**
 * The loan calculator of the new-loan form: from a principal, an annual interest rate in percent,
 * a term in months, a start date and an interest method it builds the month-by-month repayment
 * schedule and the totals shown on the form (total interest, total repayment, monthly payment,
 * effective rate, outstanding balance, maturity date). Amounts are exact reals.
 */
module LoanCalculator {
  import CalendarDates

  datatype InterestMethod = Fixed | Reducing | Flat

  /** one row of the payment schedule; `balance` is the balance left after the row's payment */
  datatype ScheduleRow = ScheduleRow(month: int, payment: real, principal: real, interest: real, balance: real)

  datatype Calculation = Calculation(
    totalInterest: real,
    totalRepayment: real,
    monthlyPayment: real,
    effectiveRate: real,
    outstandingBalance: real,
    maturity: CalendarDates.Date,
    schedule: seq<ScheduleRow>)

  /** the amount, rate and term checks the form makes before it runs the calculator */
  predicate ValidTerms(principal: real, annualRate: real, months: int) {
    principal > 0.0 && annualRate > 0.0 && months > 0
  }

  /** all the form's checks: the terms and a start date that parses */
  predicate ValidInputs(principal: real, annualRate: real, months: int, start: CalendarDates.Date) {
    ValidTerms(principal, annualRate, months) && CalendarDates.ValidDate(start)
  }

  /** `Math.max(0, x)` */
  function Max0(x: real): (r: real)
    ensures r >= 0.0 && r >= x
    ensures x >= 0.0 ==> r == x
  {
    if x < 0.0 then 0.0 else x
  }

  /** `Math.pow(x, n)` for a whole exponent */
  function Pow(x: real, n: nat): real {
    if n == 0 then 1.0 else x * Pow(x, n - 1)
  }

  lemma {:induction false} PowAboveOne(x: real, n: nat)
    requires x > 1.0
    ensures Pow(x, n) >= 1.0
    ensures n > 0 ==> Pow(x, n) > 1.0
  {
    if n > 0 {
      PowAboveOne(x, n - 1);
      assert x * Pow(x, n - 1) >= x * 1.0;
    }
  }

  lemma PositiveQuotient(a: real, b: real, c: real)
    requires a * b == c && b > 0.0 && c > 0.0
    ensures a > 0.0
  {
  }

  function MonthlyRate(annualRate: real): real {
    annualRate / 100.0 / 12.0
  }

  // ---------------------------------------------------------------------------------------------
  // Fixed and flat methods: the same equal split, two different total-interest formulas

  /** Fixed: a single charge of the annual rate on the principal, whatever the term */
  function FixedInterest(principal: real, annualRate: real): real {
    principal * (annualRate / 100.0)
  }

  /** Flat: the annual rate on the principal, pro-rated by the term in years */
  function FlatInterest(principal: real, annualRate: real, months: int): real {
    principal * (annualRate / 100.0) * (months as real / 12.0)
  }

  /** the loop's `balance` after k executions of `balance -= step` */
  function RunningBalance(principal: real, step: real, k: nat): real {
    if k == 0 then principal else RunningBalance(principal, step, k - 1) - step
  }

  lemma {:induction false} RunningBalanceClosedForm(principal: real, step: real, k: nat)
    ensures RunningBalance(principal, step, k) == principal - k as real * step
  {
    if k > 0 {
      RunningBalanceClosedForm(principal, step, k - 1);
    }
  }

  /** the first k rows of an equal-split schedule: the same three amounts every month */
  function EqualRows(principal: real, payment: real, principalPart: real, interestPart: real, k: nat): (rows: seq<ScheduleRow>)
    ensures |rows| == k
  {
    if k == 0 then []
    else
      EqualRows(principal, payment, principalPart, interestPart, k - 1)
        + [ScheduleRow(k, payment, principalPart, interestPart, Max0(RunningBalance(principal, principalPart, k)))]
  }

  // ---------------------------------------------------------------------------------------------
  // Reducing-balance method (equal monthly instalment)

  /** the instalment `P * (r * (1+r)^n) / ((1+r)^n - 1)` */
  function Instalment(principal: real, rate: real, months: int): real
    requires rate > 0.0 && months > 0
  {
    var growth := Pow(1.0 + rate, months);
    PowAboveOne(1.0 + rate, months);
    principal * (rate * growth) / (growth - 1.0)
  }

  /** The instalment solves the annuity equation and, on a real loan, exceeds the first month's interest. */
  lemma InstalmentEquation(principal: real, rate: real, months: int)
    requires rate > 0.0 && months > 0
    ensures var e := Instalment(principal, rate, months);
            e * (Pow(1.0 + rate, months) - 1.0) == principal * rate * Pow(1.0 + rate, months)
    ensures principal > 0.0 ==> Instalment(principal, rate, months) > principal * rate
  {
    var growth := Pow(1.0 + rate, months);
    PowAboveOne(1.0 + rate, months);
    var e := Instalment(principal, rate, months);
    QuotientTimes(principal * rate * growth, growth - 1.0);
    assert e == principal * rate * growth / (growth - 1.0);
    if principal > 0.0 {
      assert (e - principal * rate) * (growth - 1.0) == principal * rate;
      PositiveQuotient(e - principal * rate, growth - 1.0, principal * rate);
    }
  }

  /** `(a / d) * d == a` */
  lemma QuotientTimes(a: real, d: real)
    requires d != 0.0
    ensures a / d * d == a
  {
  }

  /** the loop's `balance` after k months: each month takes off the instalment less the interest */
  function ReducingBalance(principal: real, rate: real, instalment: real, k: nat): real {
    if k == 0 then principal
    else
      var before := ReducingBalance(principal, rate, instalment, k - 1);
      before - (instalment - before * rate)
  }

  /** the loop's `totalInterest` after k months */
  function AccruedInterest(principal: real, rate: real, instalment: real, k: nat): real {
    if k == 0 then 0.0
    else AccruedInterest(principal, rate, instalment, k - 1) + ReducingBalance(principal, rate, instalment, k - 1) * rate
  }

  /** the first k rows of a reducing-balance schedule */
  function ReducingRows(principal: real, rate: real, instalment: real, k: nat): (rows: seq<ScheduleRow>)
    ensures |rows| == k
  {
    if k == 0 then []
    else
      var before := ReducingBalance(principal, rate, instalment, k - 1);
      ReducingRows(principal, rate, instalment, k - 1)
        + [ScheduleRow(k, instalment, instalment - before * rate, before * rate,
                       Max0(ReducingBalance(principal, rate, instalment, k)))]
  }

  // ---------------------------------------------------------------------------------------------
  // The whole calculation

  function TotalInterest(kind: InterestMethod, principal: real, annualRate: real, months: int): real
    requires ValidTerms(principal, annualRate, months)
  {
    match kind
    case Fixed => FixedInterest(principal, annualRate)
    case Flat => FlatInterest(principal, annualRate, months)
    case Reducing =>
      var rate := MonthlyRate(annualRate);
      AccruedInterest(principal, rate, Instalment(principal, rate, months), months)
  }

  function MonthlyPayment(kind: InterestMethod, principal: real, annualRate: real, months: int): real
    requires ValidTerms(principal, annualRate, months)
  {
    match kind
    case Reducing => Instalment(principal, MonthlyRate(annualRate), months)
    case _ => (principal + TotalInterest(kind, principal, annualRate, months)) / months as real
  }

  function Schedule(kind: InterestMethod, principal: real, annualRate: real, months: int): seq<ScheduleRow>
    requires ValidTerms(principal, annualRate, months)
  {
    match kind
    case Reducing =>
      var rate := MonthlyRate(annualRate);
      ReducingRows(principal, rate, Instalment(principal, rate, months), months)
    case _ =>
      var m := months as real;
      var interest := TotalInterest(kind, principal, annualRate, months);
      EqualRows(principal, (principal + interest) / m, principal / m, interest / m, months)
  }

  /** `(totalInterest / principal) * (12 / term) * 100`: the interest as an annual percentage */
  function EffectiveRate(interest: real, principal: real, months: int): real
    requires principal != 0.0 && months > 0
  {
    (interest / principal) * (12.0 / months as real) * 100.0
  }

  /** the calculator's result for valid inputs */
  function Calculate(kind: InterestMethod, principal: real, annualRate: real, months: int,
                     start: CalendarDates.Date): Calculation
    requires ValidInputs(principal, annualRate, months, start)
  {
    var interest := TotalInterest(kind, principal, annualRate, months);
    var repayment := principal + interest;
    Calculation(
      interest,
      repayment,
      MonthlyPayment(kind, principal, annualRate, months),
      EffectiveRate(interest, principal, months),
      -repayment,
      CalendarDates.AddMonths(start, months),
      Schedule(kind, principal, annualRate, months))
  }

  /** the fixed/flat loop: `balance -= monthlyPrincipal` and one equal row per month */
  method EqualSplitLoop(principal: real, monthlyPayment: real, monthlyPrincipal: real, monthlyInterest: real,
                        months: int) returns (schedule: seq<ScheduleRow>)
    requires months > 0
    ensures schedule == EqualRows(principal, monthlyPayment, monthlyPrincipal, monthlyInterest, months)
  {
    var balance := principal;
    schedule := [];
    var month := 1;
    while month <= months
      invariant 1 <= month <= months + 1
      invariant balance == RunningBalance(principal, monthlyPrincipal, month - 1)
      invariant schedule == EqualRows(principal, monthlyPayment, monthlyPrincipal, monthlyInterest, month - 1)
    {
      balance := balance - monthlyPrincipal;
      schedule := schedule + [ScheduleRow(month, monthlyPayment, monthlyPrincipal, monthlyInterest, Max0(balance))];
      month := month + 1;
    }
  }

  /** the reducing loop: interest on the running balance, the rest of the instalment off the balance */
  method ReducingLoop(principal: real, monthlyRate: real, monthlyPayment: real, months: int)
    returns (totalInterest: real, schedule: seq<ScheduleRow>)
    requires months > 0
    ensures totalInterest == AccruedInterest(principal, monthlyRate, monthlyPayment, months)
    ensures schedule == ReducingRows(principal, monthlyRate, monthlyPayment, months)
  {
    totalInterest := 0.0;
    schedule := [];
    var balance := principal;
    var month := 1;
    while month <= months
      invariant 1 <= month <= months + 1
      invariant balance == ReducingBalance(principal, monthlyRate, monthlyPayment, month - 1)
      invariant totalInterest == AccruedInterest(principal, monthlyRate, monthlyPayment, month - 1)
      invariant schedule == ReducingRows(principal, monthlyRate, monthlyPayment, month - 1)
    {
      var interestPayment := balance * monthlyRate;
      var principalPayment := monthlyPayment - interestPayment;
      balance := balance - principalPayment;
      totalInterest := totalInterest + interestPayment;
      schedule := schedule + [ScheduleRow(month, monthlyPayment, principalPayment, interestPayment, Max0(balance))];
      month := month + 1;
    }
  }

  /**
   * `calculateLoan` for inputs that passed the form's checks: the method's loop, then the totals
   * and the maturity date.
   */
  method CalculateLoan(kind: InterestMethod, principal: real, annualRate: real, months: int,
                       start: CalendarDates.Date) returns (c: Calculation)
    requires ValidInputs(principal, annualRate, months, start)
    ensures c == Calculate(kind, principal, annualRate, months, start)
  {
    var monthlyRate := annualRate / 100.0 / 12.0;
    var totalInterest: real;
    var monthlyPayment: real;
    var schedule: seq<ScheduleRow>;

    if kind == Fixed || kind == Flat {
      totalInterest := if kind == Fixed then principal * (annualRate / 100.0)
                       else principal * (annualRate / 100.0) * (months as real / 12.0);
      monthlyPayment := (principal + totalInterest) / months as real;
      schedule := EqualSplitLoop(principal, monthlyPayment, principal / months as real, totalInterest / months as real, months);
    } else {
      monthlyPayment := Instalment(principal, monthlyRate, months);
      totalInterest, schedule := ReducingLoop(principal, monthlyRate, monthlyPayment, months);
    }
    assert totalInterest == TotalInterest(kind, principal, annualRate, months);
    assert monthlyPayment == MonthlyPayment(kind, principal, annualRate, months);
    assert schedule == Schedule(kind, principal, annualRate, months);

    var maturity := CalendarDates.AddMonths(start, months);
    var totalRepayment := principal + totalInterest;
    var effectiveRate := EffectiveRate(totalInterest, principal, months);
    c := Calculation(totalInterest, totalRepayment, monthlyPayment, effectiveRate, -totalRepayment, maturity, schedule);
  }
}
