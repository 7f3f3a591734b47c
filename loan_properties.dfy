/**
 * What the loan calculator's results mean: the schedule pays the principal off exactly, its
 * interest column adds up to the total interest shown, the reducing method charges interest on the
 * balance actually outstanding, and the three methods relate to each other as their names promise.
 */
module LoanProperties {
  import opened LoanCalculator
  import CalendarDates

  // ---------------------------------------------------------------------------------------------
  // Steps of real arithmetic, kept apart so that no proof below has to find them among its terms

  lemma SuccTimes(n: nat, x: real)
    ensures (n + 1) as real * x == n as real * x + x
  {
  }

  lemma TermTimesShare(total: real, months: int)
    requires months > 0
    ensures months as real * (total / months as real) == total
    ensures total > 0.0 ==> total / months as real > 0.0
  {
  }

  /** n copies of x added up: how a column of equal amounts sums */
  function Scaled(n: nat, x: real): real {
    if n == 0 then 0.0 else Scaled(n - 1, x) + x
  }

  lemma {:induction false} ScaledIsProduct(n: nat, x: real)
    ensures Scaled(n, x) == n as real * x
  {
    if n > 0 {
      ScaledIsProduct(n - 1, x);
      SuccTimes(n - 1, x);
    }
  }

  /** a total split evenly over the term adds back up to the total */
  lemma ScaledShare(total: real, months: int)
    requires months > 0
    ensures Scaled(months, total / months as real) == total
  {
    ScaledIsProduct(months, total / months as real);
    TermTimesShare(total, months);
  }

  lemma SameProduct(a: real, b: real, r: real)
    requires a == b
    ensures a * r == b * r
  {
  }

  /** one month of the reducing balance, multiplied by the rate, in the closed form */
  lemma ClosedFormStep(b: real, b': real, p: real, rate: real, e: real, q: real, q': real)
    requires b * rate == p * rate * q - e * (q - 1.0)
    requires b' == b - (e - b * rate) && q' == (1.0 + rate) * q
    ensures b' * rate == p * rate * q' - e * (q' - 1.0)
  {
    calc {
      b' * rate;
      (b - (e - b * rate)) * rate;
      (b * rate) * (1.0 + rate) - e * rate;
      (p * rate * q - e * (q - 1.0)) * (1.0 + rate) - e * rate;
      p * rate * ((1.0 + rate) * q) - e * ((1.0 + rate) * q - 1.0);
    }
  }

  /** the schedule's principal column, summed */
  function PrincipalPaid(rows: seq<ScheduleRow>): real {
    if rows == [] then 0.0 else PrincipalPaid(rows[..|rows| - 1]) + rows[|rows| - 1].principal
  }

  /** the schedule's interest column, summed */
  function InterestPaid(rows: seq<ScheduleRow>): real {
    if rows == [] then 0.0 else InterestPaid(rows[..|rows| - 1]) + rows[|rows| - 1].interest
  }

  /** the schedule's payment column, summed */
  function AmountPaid(rows: seq<ScheduleRow>): real {
    if rows == [] then 0.0 else AmountPaid(rows[..|rows| - 1]) + rows[|rows| - 1].payment
  }

  /** when every payment is its principal plus its interest, so are the column totals */
  lemma {:induction false} PaidColumns(rows: seq<ScheduleRow>)
    requires forall i :: 0 <= i < |rows| ==> rows[i].payment == rows[i].principal + rows[i].interest
    ensures AmountPaid(rows) == PrincipalPaid(rows) + InterestPaid(rows)
  {
    if rows != [] {
      PaidColumns(rows[..|rows| - 1]);
    }
  }

  /** a schedule that asks the same payment every month asks that payment times its length in all */
  lemma {:induction false} ConstantPayments(rows: seq<ScheduleRow>, e: real)
    requires forall i :: 0 <= i < |rows| ==> rows[i].payment == e
    ensures AmountPaid(rows) == Scaled(|rows|, e)
  {
    if rows != [] {
      ConstantPayments(rows[..|rows| - 1], e);
    }
  }

  // ---------------------------------------------------------------------------------------------
  // Equal split (fixed and flat)

  lemma {:induction false} EqualRowsAt(p: real, pay: real, pp: real, ip: real, k: nat, i: nat)
    requires i < k
    ensures EqualRows(p, pay, pp, ip, k)[i] == ScheduleRow(i + 1, pay, pp, ip, Max0(RunningBalance(p, pp, i + 1)))
  {
    if i < k - 1 {
      EqualRowsAt(p, pay, pp, ip, k - 1, i);
    }
  }

  /** a schedule that asks the same three amounts every month adds up to them times its length */
  lemma {:induction false} ConstantColumns(rows: seq<ScheduleRow>, pay: real, pp: real, ip: real)
    requires forall i :: 0 <= i < |rows| ==> rows[i].payment == pay && rows[i].principal == pp && rows[i].interest == ip
    ensures PrincipalPaid(rows) == Scaled(|rows|, pp)
    ensures InterestPaid(rows) == Scaled(|rows|, ip)
    ensures AmountPaid(rows) == Scaled(|rows|, pay)
  {
    if rows != [] {
      ConstantColumns(rows[..|rows| - 1], pay, pp, ip);
    }
  }

  lemma EqualRowsConstant(p: real, pay: real, pp: real, ip: real, k: nat)
    ensures forall i :: 0 <= i < k ==>
              && EqualRows(p, pay, pp, ip, k)[i].payment == pay
              && EqualRows(p, pay, pp, ip, k)[i].principal == pp
              && EqualRows(p, pay, pp, ip, k)[i].interest == ip
  {
    var rows := EqualRows(p, pay, pp, ip, k);
    forall i | 0 <= i < k
      ensures rows[i].payment == pay && rows[i].principal == pp && rows[i].interest == ip
    {
      EqualRowsAt(p, pay, pp, ip, k, i);
    }
  }

  lemma EqualRowsSums(p: real, pay: real, pp: real, ip: real, k: nat)
    ensures PrincipalPaid(EqualRows(p, pay, pp, ip, k)) == Scaled(k, pp)
    ensures InterestPaid(EqualRows(p, pay, pp, ip, k)) == Scaled(k, ip)
    ensures AmountPaid(EqualRows(p, pay, pp, ip, k)) == Scaled(k, pay)
  {
    var rows := EqualRows(p, pay, pp, ip, k);
    EqualRowsConstant(p, pay, pp, ip, k);
    assert |rows| == k;
    ConstantColumns(rows, pay, pp, ip);
  }

  /** the equal-split balance after month i + 1, while the loan is not yet paid off */
  lemma EqualBalanceAt(p: real, months: int, i: nat)
    requires p > 0.0 && 0 <= i < months
    ensures Max0(RunningBalance(p, p / months as real, i + 1))
            == p - (i + 1) as real * (p / months as real)
  {
    RunningBalanceClosedForm(p, p / months as real, i + 1);
    TermTimesShare(p, months);
    FewerShares(i + 1, months, p / months as real);
  }

  /** fewer equal shares add up to no more */
  lemma FewerShares(k: nat, n: int, x: real)
    requires k <= n && x >= 0.0
    ensures k as real * x <= n as real * x
  {
  }

  lemma EqualBalancesFall(p: real, months: int, i: nat, j: nat)
    requires p > 0.0 && i < j < months
    ensures Max0(RunningBalance(p, p / months as real, j + 1)) < Max0(RunningBalance(p, p / months as real, i + 1))
  {
    var step := p / months as real;
    EqualBalanceAt(p, months, i);
    EqualBalanceAt(p, months, j);
    assert (j - i) as real * step > 0.0;
    assert (j + 1) as real * step == (i + 1) as real * step + (j - i) as real * step;
    assert p - (j + 1) as real * step < p - (i + 1) as real * step;
    assert Max0(RunningBalance(p, step, j + 1)) == p - (j + 1) as real * step;
    assert Max0(RunningBalance(p, step, i + 1)) == p - (i + 1) as real * step;
  }

  lemma EqualScheduleFacts(p: real, ti: real, months: int)
    requires p > 0.0 && months > 0
    ensures var m := months as real;
      var s := EqualRows(p, (p + ti) / m, p / m, ti / m, months);
      && (forall i :: 0 <= i < months ==>
            s[i].month == i + 1 && s[i].payment == s[i].principal + s[i].interest && s[i].balance >= 0.0)
      && s[months - 1].balance == 0.0
      && (forall i, j :: 0 <= i < j < months ==> s[j].balance < s[i].balance)
  {
    var m := months as real;
    var step := p / m;
    var s := EqualRows(p, (p + ti) / m, step, ti / m, months);
    assert (p + ti) / m == step + ti / m;
    forall i | 0 <= i < months
      ensures s[i].month == i + 1 && s[i].payment == s[i].principal + s[i].interest && s[i].balance >= 0.0
    {
      EqualRowsAt(p, (p + ti) / m, step, ti / m, months, i);
    }
    EqualRowsAt(p, (p + ti) / m, step, ti / m, months, months - 1);
    EqualBalanceAt(p, months, months - 1);
    assert m * step == p;
    forall i, j | 0 <= i < j < months
      ensures s[j].balance < s[i].balance
    {
      EqualRowsAt(p, (p + ti) / m, step, ti / m, months, i);
      EqualRowsAt(p, (p + ti) / m, step, ti / m, months, j);
      EqualBalancesFall(p, months, i, j);
    }
  }

  lemma EqualScheduleSums(p: real, ti: real, months: int)
    requires months > 0
    ensures var m := months as real;
      var s := EqualRows(p, (p + ti) / m, p / m, ti / m, months);
      && PrincipalPaid(s) == p
      && InterestPaid(s) == ti
      && AmountPaid(s) == p + ti
  {
    var m := months as real;
    EqualRowsSums(p, (p + ti) / m, p / m, ti / m, months);
    ScaledShare(p, months);
    ScaledShare(ti, months);
    ScaledShare(p + ti, months);
  }

  // ---------------------------------------------------------------------------------------------
  // Reducing balance

  lemma {:induction false} ReducingRowsAt(p: real, rate: real, e: real, k: nat, i: nat)
    requires i < k
    ensures ReducingRows(p, rate, e, k)[i]
            == ScheduleRow(i + 1, e, e - ReducingBalance(p, rate, e, i) * rate, ReducingBalance(p, rate, e, i) * rate,
                           Max0(ReducingBalance(p, rate, e, i + 1)))
  {
    if i < k - 1 {
      ReducingRowsAt(p, rate, e, k - 1, i);
    }
  }

  /** the fields of one reducing row, each on its own */
  lemma ReducingRowFields(p: real, rate: real, e: real, k: nat, i: nat)
    requires i < k
    ensures ReducingRows(p, rate, e, k)[i].month == i + 1
    ensures ReducingRows(p, rate, e, k)[i].payment == e
    ensures ReducingRows(p, rate, e, k)[i].interest == ReducingBalance(p, rate, e, i) * rate
    ensures ReducingRows(p, rate, e, k)[i].principal == e - ReducingBalance(p, rate, e, i) * rate
    ensures ReducingRows(p, rate, e, k)[i].balance == Max0(ReducingBalance(p, rate, e, i + 1))
  {
    ReducingRowsAt(p, rate, e, k, i);
    var row := ReducingRows(p, rate, e, k)[i];
    assert row == ScheduleRow(i + 1, e, e - ReducingBalance(p, rate, e, i) * rate, ReducingBalance(p, rate, e, i) * rate,
                              Max0(ReducingBalance(p, rate, e, i + 1)));
  }

  /** a row's interest column: the balance it starts from times the rate */
  lemma ReducingRowInterestAt(p: real, rate: real, e: real, k: nat, i: nat)
    requires i < k
    ensures ReducingRows(p, rate, e, k)[i].interest == ReducingBalance(p, rate, e, i) * rate
  {
    ReducingRowFields(p, rate, e, k, i);
  }

  /** a row's balance column: the balance it leaves, shown as zero when negative */
  lemma ReducingRowBalanceAt(p: real, rate: real, e: real, k: nat, i: nat)
    requires i < k
    ensures ReducingRows(p, rate, e, k)[i].balance == Max0(ReducingBalance(p, rate, e, i + 1))
  {
    ReducingRowFields(p, rate, e, k, i);
  }

  lemma {:induction false} ReducingPrincipalPaid(p: real, rate: real, e: real, k: nat)
    ensures PrincipalPaid(ReducingRows(p, rate, e, k)) == p - ReducingBalance(p, rate, e, k)
  {
    if k > 0 {
      ReducingPrincipalPaid(p, rate, e, k - 1);
      var rows := ReducingRows(p, rate, e, k);
      assert rows[..k - 1] == ReducingRows(p, rate, e, k - 1);
    }
  }

  lemma {:induction false} ReducingInterestPaid(p: real, rate: real, e: real, k: nat)
    ensures InterestPaid(ReducingRows(p, rate, e, k)) == AccruedInterest(p, rate, e, k)
  {
    if k > 0 {
      ReducingInterestPaid(p, rate, e, k - 1);
      var rows := ReducingRows(p, rate, e, k);
      assert rows[..k - 1] == ReducingRows(p, rate, e, k - 1);
    }
  }

  /** balance times rate, in closed form: the principal grows by (1+r)^k, each instalment paid grows too */
  lemma {:induction false} ReducingBalanceClosedForm(p: real, rate: real, e: real, k: nat)
    ensures ReducingBalance(p, rate, e, k) * rate
            == p * rate * Pow(1.0 + rate, k) - e * (Pow(1.0 + rate, k) - 1.0)
  {
    if k > 0 {
      ReducingBalanceClosedForm(p, rate, e, k - 1);
      ClosedFormNext(p, rate, e, k);
    }
  }

  /** the closed form carries over from one month to the next */
  lemma ClosedFormNext(p: real, rate: real, e: real, k: nat)
    requires k > 0
    requires ReducingBalance(p, rate, e, k - 1) * rate
             == p * rate * Pow(1.0 + rate, k - 1) - e * (Pow(1.0 + rate, k - 1) - 1.0)
    ensures ReducingBalance(p, rate, e, k) * rate
            == p * rate * Pow(1.0 + rate, k) - e * (Pow(1.0 + rate, k) - 1.0)
  {
    ClosedFormStep(ReducingBalance(p, rate, e, k - 1), ReducingBalance(p, rate, e, k), p, rate, e,
                   Pow(1.0 + rate, k - 1), Pow(1.0 + rate, k));
  }

  /** The instalment exceeds the first month's interest, and paying it every month clears the loan. */
  lemma InstalmentFacts(p: real, rate: real, months: int)
    requires p > 0.0 && rate > 0.0 && months > 0
    ensures Instalment(p, rate, months) > p * rate
    ensures ReducingBalance(p, rate, Instalment(p, rate, months), months) == 0.0
  {
    var e := Instalment(p, rate, months);
    InstalmentEquation(p, rate, months);
    ReducingBalanceClosedForm(p, rate, e, months);
    assert ReducingBalance(p, rate, e, months) * rate == 0.0;
  }

  /** With an instalment above the first month's interest the balance falls every month. */
  lemma {:induction false} ReducingBalanceFalls(p: real, rate: real, e: real, k: nat)
    requires rate > 0.0 && e > p * rate
    ensures ReducingBalance(p, rate, e, k) <= p
    ensures ReducingBalance(p, rate, e, k + 1) < ReducingBalance(p, rate, e, k)
  {
    if k > 0 {
      ReducingBalanceFalls(p, rate, e, k - 1);
    }
    var b := ReducingBalance(p, rate, e, k);
    assert b * rate <= p * rate;
  }

  lemma {:induction false} ReducingBalanceOrder(p: real, rate: real, e: real, i: nat, j: nat)
    requires rate > 0.0 && e > p * rate && i < j
    ensures ReducingBalance(p, rate, e, j) < ReducingBalance(p, rate, e, i)
  {
    ReducingBalanceFalls(p, rate, e, j - 1);
    if i < j - 1 {
      ReducingBalanceOrder(p, rate, e, i, j - 1);
    }
  }

  /** one row of a reducing schedule whose instalment exceeds the first interest and clears the loan */
  lemma InterestOnPreviousBalance(p: real, rate: real, e: real, months: nat, i: nat)
    requires 0 < i < months && ReducingBalance(p, rate, e, i) >= 0.0
    ensures ReducingRows(p, rate, e, months)[i].interest == ReducingRows(p, rate, e, months)[i - 1].balance * rate
  {
    ReducingRowInterestAt(p, rate, e, months, i);
    ReducingRowBalanceAt(p, rate, e, months, i - 1);
    assert ReducingRows(p, rate, e, months)[i - 1].balance == ReducingBalance(p, rate, e, i);
    calc {
      ReducingRows(p, rate, e, months)[i].interest;
      ReducingBalance(p, rate, e, i) * rate;
      { SameProduct(ReducingBalance(p, rate, e, i), ReducingRows(p, rate, e, months)[i - 1].balance, rate); }
      ReducingRows(p, rate, e, months)[i - 1].balance * rate;
    }
  }

  /** after the first month, the interest is charged on the balance the month before left */
  lemma ReducingRowInterest(p: real, rate: real, e: real, months: nat, i: nat)
    requires rate > 0.0 && e > p * rate && ReducingBalance(p, rate, e, months) == 0.0 && 0 < i < months
    ensures ReducingRows(p, rate, e, months)[i].interest == ReducingRows(p, rate, e, months)[i - 1].balance * rate
  {
    ReducingBalanceOrder(p, rate, e, i, months);
    InterestOnPreviousBalance(p, rate, e, months, i);
  }

  lemma ReducingRowsFall(p: real, rate: real, e: real, months: nat, i: nat, j: nat)
    requires rate > 0.0 && e > p * rate && ReducingBalance(p, rate, e, months) == 0.0 && i < j < months
    ensures ReducingRows(p, rate, e, months)[j].balance < ReducingRows(p, rate, e, months)[i].balance
  {
    ReducingRowFields(p, rate, e, months, i);
    ReducingRowFields(p, rate, e, months, j);
    ReducingBalanceOrder(p, rate, e, i + 1, j + 1);
    if j + 1 < months {
      ReducingBalanceOrder(p, rate, e, j + 1, months);
    }
  }

  /** a reducing schedule whose instalment exceeds the first interest and clears the loan */
  ghost predicate Clears(p: real, rate: real, e: real, months: nat) {
    rate > 0.0 && e > p * rate && ReducingBalance(p, rate, e, months) == 0.0 && months > 0
  }

  lemma ReducingRowsWellFormed(p: real, rate: real, e: real, months: nat)
    requires Clears(p, rate, e, months)
    ensures forall i :: 0 <= i < months ==>
              && ReducingRows(p, rate, e, months)[i].month == i + 1
              && ReducingRows(p, rate, e, months)[i].payment
                 == ReducingRows(p, rate, e, months)[i].principal + ReducingRows(p, rate, e, months)[i].interest
              && ReducingRows(p, rate, e, months)[i].balance >= 0.0
  {
    forall i | 0 <= i < months
      ensures ReducingRows(p, rate, e, months)[i].month == i + 1
      ensures ReducingRows(p, rate, e, months)[i].payment
              == ReducingRows(p, rate, e, months)[i].principal + ReducingRows(p, rate, e, months)[i].interest
      ensures ReducingRows(p, rate, e, months)[i].balance >= 0.0
    {
      ReducingRowFields(p, rate, e, months, i);
    }
  }

  /** the first month's interest is charged on the whole principal */
  lemma FirstInterest(p: real, rate: real, e: real, months: nat)
    requires months > 0
    ensures ReducingRows(p, rate, e, months)[0].interest == p * rate
  {
    ReducingRowFields(p, rate, e, months, 0);
    SameProduct(ReducingBalance(p, rate, e, 0), p, rate);
  }

  lemma ReducingRowsInterest(p: real, rate: real, e: real, months: nat)
    requires Clears(p, rate, e, months)
    ensures ReducingRows(p, rate, e, months)[0].interest == p * rate
    ensures forall i :: 0 < i < months ==>
              ReducingRows(p, rate, e, months)[i].interest == ReducingRows(p, rate, e, months)[i - 1].balance * rate
  {
    FirstInterest(p, rate, e, months);
    forall i | 0 < i < months
      ensures ReducingRows(p, rate, e, months)[i].interest == ReducingRows(p, rate, e, months)[i - 1].balance * rate
    {
      ReducingRowInterest(p, rate, e, months, i);
    }
  }

  lemma ReducingRowsBalances(p: real, rate: real, e: real, months: nat)
    requires Clears(p, rate, e, months)
    ensures ReducingRows(p, rate, e, months)[months - 1].balance == 0.0
    ensures forall i, j :: 0 <= i < j < months ==>
              ReducingRows(p, rate, e, months)[j].balance < ReducingRows(p, rate, e, months)[i].balance
  {
    ReducingRowFields(p, rate, e, months, months - 1);
    forall i, j | 0 <= i < j < months
      ensures ReducingRows(p, rate, e, months)[j].balance < ReducingRows(p, rate, e, months)[i].balance
    {
      ReducingRowsFall(p, rate, e, months, i, j);
    }
  }

  lemma ReducingScheduleFacts(p: real, rate: real, months: int)
    requires p > 0.0 && rate > 0.0 && months > 0
    ensures var s := ReducingRows(p, rate, Instalment(p, rate, months), months);
      && (forall i :: 0 <= i < months ==>
            s[i].month == i + 1 && s[i].payment == s[i].principal + s[i].interest && s[i].balance >= 0.0)
      && s[0].interest == p * rate
      && (forall i :: 0 < i < months ==> s[i].interest == s[i - 1].balance * rate)
      && s[months - 1].balance == 0.0
      && (forall i, j :: 0 <= i < j < months ==> s[j].balance < s[i].balance)
  {
    InstalmentFacts(p, rate, months);
    ReducingRowsWellFormed(p, rate, Instalment(p, rate, months), months);
    ReducingRowsInterest(p, rate, Instalment(p, rate, months), months);
    ReducingRowsBalances(p, rate, Instalment(p, rate, months), months);
  }

  lemma ReducingPaymentAt(p: real, rate: real, e: real, k: nat, i: nat)
    requires i < k
    ensures ReducingRows(p, rate, e, k)[i].payment == e
    ensures ReducingRows(p, rate, e, k)[i].payment
            == ReducingRows(p, rate, e, k)[i].principal + ReducingRows(p, rate, e, k)[i].interest
  {
    ReducingRowFields(p, rate, e, k, i);
  }

  lemma ReducingPayments(p: real, rate: real, e: real, k: nat)
    ensures forall i :: 0 <= i < k ==>
              && ReducingRows(p, rate, e, k)[i].payment == e
              && ReducingRows(p, rate, e, k)[i].payment
                 == ReducingRows(p, rate, e, k)[i].principal + ReducingRows(p, rate, e, k)[i].interest
  {
    forall i | 0 <= i < k
      ensures ReducingRows(p, rate, e, k)[i].payment == e
      ensures ReducingRows(p, rate, e, k)[i].payment
              == ReducingRows(p, rate, e, k)[i].principal + ReducingRows(p, rate, e, k)[i].interest
    {
      ReducingPaymentAt(p, rate, e, k, i);
    }
  }

  lemma ReducingSums(p: real, rate: real, e: real, months: nat)
    requires ReducingBalance(p, rate, e, months) == 0.0
    ensures var s := ReducingRows(p, rate, e, months);
      && PrincipalPaid(s) == p
      && InterestPaid(s) == AccruedInterest(p, rate, e, months)
      && AmountPaid(s) == months as real * e
      && months as real * e == p + AccruedInterest(p, rate, e, months)
  {
    var s := ReducingRows(p, rate, e, months);
    ReducingPrincipalPaid(p, rate, e, months);
    ReducingInterestPaid(p, rate, e, months);
    ReducingPayments(p, rate, e, months);
    ConstantPayments(s, e);
    ScaledIsProduct(months, e);
    PaidColumns(s);
  }

  /** The reducing schedule pays off the principal, and its instalments cover principal plus interest. */
  lemma ReducingScheduleSums(p: real, rate: real, months: int)
    requires p > 0.0 && rate > 0.0 && months > 0
    ensures var e := Instalment(p, rate, months);
      var s := ReducingRows(p, rate, e, months);
      && PrincipalPaid(s) == p
      && InterestPaid(s) == AccruedInterest(p, rate, e, months)
      && AmountPaid(s) == months as real * e
      && months as real * e == p + AccruedInterest(p, rate, e, months)
  {
    InstalmentFacts(p, rate, months);
    ReducingSums(p, rate, Instalment(p, rate, months), months);
  }

  // ---------------------------------------------------------------------------------------------
  // The calculation as the form shows it

  /**
   * For every method: one row per month, numbered from 1; each payment is its principal plus its
   * interest; no balance is negative, each is below the one before, and the last is zero.
   */
  lemma ScheduleShape(kind: InterestMethod, p: real, r: real, months: int, start: CalendarDates.Date)
    requires ValidInputs(p, r, months, start)
    ensures var s := Calculate(kind, p, r, months, start).schedule;
      && |s| == months
      && (forall i :: 0 <= i < months ==>
            s[i].month == i + 1 && s[i].payment == s[i].principal + s[i].interest && s[i].balance >= 0.0)
      && (forall i, j :: 0 <= i < j < months ==> s[j].balance < s[i].balance)
      && s[months - 1].balance == 0.0
  {
    if kind == Reducing {
      ReducingScheduleFacts(p, MonthlyRate(r), months);
    } else {
      EqualScheduleFacts(p, TotalInterest(kind, p, r, months), months);
    }
  }

  /** a schedule's columns against a total interest and a monthly payment over a term */
  ghost predicate ColumnsAgree(s: seq<ScheduleRow>, p: real, ti: real, pay: real, months: int) {
    && PrincipalPaid(s) == p
    && InterestPaid(s) == ti
    && AmountPaid(s) == p + ti
    && months as real * pay == p + ti
  }

  lemma ReducingColumns(p: real, r: real, months: int)
    requires ValidTerms(p, r, months)
    ensures ColumnsAgree(Schedule(Reducing, p, r, months), p, TotalInterest(Reducing, p, r, months),
                         MonthlyPayment(Reducing, p, r, months), months)
  {
    ReducingScheduleSums(p, MonthlyRate(r), months);
    assert ColumnsAgree(ReducingRows(p, MonthlyRate(r), Instalment(p, MonthlyRate(r), months), months), p,
                        AccruedInterest(p, MonthlyRate(r), Instalment(p, MonthlyRate(r), months), months),
                        Instalment(p, MonthlyRate(r), months), months);
  }

  lemma EqualColumns(kind: InterestMethod, p: real, r: real, months: int)
    requires ValidTerms(p, r, months) && kind != Reducing
    ensures ColumnsAgree(Schedule(kind, p, r, months), p, TotalInterest(kind, p, r, months),
                         MonthlyPayment(kind, p, r, months), months)
  {
    EqualScheduleSums(p, TotalInterest(kind, p, r, months), months);
    TermTimesShare(p + TotalInterest(kind, p, r, months), months);
    assert ColumnsAgree(
      EqualRows(p, (p + TotalInterest(kind, p, r, months)) / months as real, p / months as real,
                TotalInterest(kind, p, r, months) / months as real, months),
      p, TotalInterest(kind, p, r, months), (p + TotalInterest(kind, p, r, months)) / months as real, months);
  }

  lemma ColumnsFor(kind: InterestMethod, p: real, r: real, months: int)
    requires ValidTerms(p, r, months)
    ensures ColumnsAgree(Schedule(kind, p, r, months), p, TotalInterest(kind, p, r, months),
                         MonthlyPayment(kind, p, r, months), months)
  {
    if kind == Reducing {
      ReducingColumns(p, r, months);
    } else {
      EqualColumns(kind, p, r, months);
    }
  }

  /** the fields of a calculation, named by the functions that compute them */
  lemma CalculateFields(kind: InterestMethod, p: real, r: real, months: int, start: CalendarDates.Date)
    requires ValidInputs(p, r, months, start)
    ensures var c := Calculate(kind, p, r, months, start);
      && c.schedule == Schedule(kind, p, r, months)
      && c.totalInterest == TotalInterest(kind, p, r, months)
      && c.monthlyPayment == MonthlyPayment(kind, p, r, months)
      && c.totalRepayment == p + c.totalInterest
      && c.outstandingBalance == -c.totalRepayment
  {
  }

  /** the totals of a result whose fields are the schedule's and the loan's totals agree with its columns */
  lemma ResultAgrees(c: Calculation, p: real, ti: real, pay: real, months: int)
    requires ColumnsAgree(c.schedule, p, ti, pay, months)
    requires c.totalInterest == ti && c.monthlyPayment == pay
    requires c.totalRepayment == p + ti && c.outstandingBalance == -c.totalRepayment
    ensures PrincipalPaid(c.schedule) == p
    ensures InterestPaid(c.schedule) == c.totalInterest
    ensures AmountPaid(c.schedule) == c.totalRepayment
  {
  }

  /**
   * The schedule's columns add up to the totals shown: principal to the loan amount, interest to
   * the total interest, payments to the total repayment.
   */
  lemma ScheduleTotals(kind: InterestMethod, p: real, r: real, months: int, start: CalendarDates.Date)
    requires ValidInputs(p, r, months, start)
    ensures var c := Calculate(kind, p, r, months, start);
      && PrincipalPaid(c.schedule) == p
      && InterestPaid(c.schedule) == c.totalInterest
      && AmountPaid(c.schedule) == c.totalRepayment
  {
    ColumnsFor(kind, p, r, months);
    CalculateFields(kind, p, r, months, start);
    ResultAgrees(Calculate(kind, p, r, months, start), p, TotalInterest(kind, p, r, months),
                 MonthlyPayment(kind, p, r, months), months);
  }

  /** paying the monthly payment every month of the term repays the loan amount plus the total interest */
  lemma PaymentsRepayLoan(kind: InterestMethod, p: real, r: real, months: int)
    requires ValidTerms(p, r, months)
    ensures months as real * MonthlyPayment(kind, p, r, months) == p + TotalInterest(kind, p, r, months)
  {
    ColumnsFor(kind, p, r, months);
  }

  /**
   * What the form shows as payable and as outstanding is the monthly payment times the term: a
   * result whose total repayment is the loan plus the method's interest, and whose outstanding
   * balance is the negated repayment, owes exactly `months` monthly payments. `CalculateFields`
   * shows that `Calculate` sets its fields so.
   */
  lemma PayableIsTermPayments(kind: InterestMethod, p: real, r: real, months: int, c: Calculation)
    requires ValidTerms(p, r, months)
    requires c.monthlyPayment == MonthlyPayment(kind, p, r, months)
    requires c.totalRepayment == p + TotalInterest(kind, p, r, months) && c.outstandingBalance == -c.totalRepayment
    ensures c.totalRepayment == months as real * c.monthlyPayment
    ensures c.outstandingBalance == -(months as real * c.monthlyPayment)
  {
    PaymentsRepayLoan(kind, p, r, months);
  }

  /**
   * The reducing method charges each month's interest on the balance left after the month before:
   * the loan amount in the first month.
   */
  lemma ReducingChargesOutstandingBalance(p: real, r: real, months: int)
    requires ValidTerms(p, r, months)
    ensures var s := Schedule(Reducing, p, r, months);
      && s[0].interest == p * MonthlyRate(r)
      && forall i :: 0 < i < |s| ==> s[i].interest == s[i - 1].balance * MonthlyRate(r)
  {
    InstalmentFacts(p, MonthlyRate(r), months);
    ReducingRowsInterest(p, MonthlyRate(r), Instalment(p, MonthlyRate(r), months), months);
    assert Schedule(Reducing, p, r, months)
           == ReducingRows(p, MonthlyRate(r), Instalment(p, MonthlyRate(r), months), months);
    forall i | 0 < i < months
      ensures Schedule(Reducing, p, r, months)[i].interest
              == Schedule(Reducing, p, r, months)[i - 1].balance * MonthlyRate(r)
    {
      SameProduct(ReducingRows(p, MonthlyRate(r), Instalment(p, MonthlyRate(r), months), months)[i - 1].balance,
                  Schedule(Reducing, p, r, months)[i - 1].balance, MonthlyRate(r));
    }
  }

  /** Fixed interest is the annual rate once, whatever the term; its effective rate scales with 12/term. */
  lemma FixedInterestIgnoresTerm(p: real, r: real, months: int, start: CalendarDates.Date)
    requires ValidInputs(p, r, months, start)
    ensures Calculate(Fixed, p, r, months, start).totalInterest == p * r / 100.0
    ensures Calculate(Fixed, p, r, months, start).effectiveRate * months as real == 12.0 * r
  {
    var m := months as real;
    var ti := p * (r / 100.0);
    assert ti / p == r / 100.0;
    assert (r / 100.0) * (12.0 / m) * 100.0 * m == 12.0 * r;
  }

  /** Flat interest is pro-rated by the term, so its effective annual rate is the rate entered. */
  lemma FlatEffectiveRateIsRate(p: real, r: real, months: int, start: CalendarDates.Date)
    requires ValidInputs(p, r, months, start)
    ensures Calculate(Flat, p, r, months, start).totalInterest == p * r / 100.0 * months as real / 12.0
    ensures Calculate(Flat, p, r, months, start).effectiveRate == r
  {
    var m := months as real;
    var ti := p * (r / 100.0) * (m / 12.0);
    assert ti / p == (r / 100.0) * (m / 12.0);
    assert (r / 100.0) * (m / 12.0) * (12.0 / m) == r / 100.0;
  }

  /** Over a one-year term the flat and fixed methods give the same calculation. */
  lemma FlatIsFixedOverOneYear(p: real, r: real, start: CalendarDates.Date)
    requires ValidInputs(p, r, 12, start)
    ensures Calculate(Flat, p, r, 12, start) == Calculate(Fixed, p, r, 12, start)
  {
    assert FlatInterest(p, r, 12) == FixedInterest(p, r);
  }

  /** The maturity date is the start date moved on by the term in months. */
  lemma MaturityIsTermAfterStart(kind: InterestMethod, p: real, r: real, months: int, start: CalendarDates.Date)
    requires ValidInputs(p, r, months, start)
    ensures var d := Calculate(kind, p, r, months, start).maturity;
      && CalendarDates.ValidDate(d)
      && CalendarDates.MonthIndex(d) >= CalendarDates.MonthIndex(start) + months
      && (start.day <= 28 ==> CalendarDates.MonthIndex(d) == CalendarDates.MonthIndex(start) + months && d.day == start.day)
  {
    if start.day <= 28 {
      CalendarDates.EarlyDayPreserved(start, months);
    }
  }
}
