/**
 * The staff detail dialog: the customers and transactions of the selected staff member, the five
 * newest activities, the customer list ordered by account number, and the per-day report of
 * deposits and withdrawals. The selected member's id is `None` when nothing (or a member without
 * an id) is selected, which then matches records whose staff field is missing as well.
 */
module StaffDetail {
  import opened Wrappers
  import opened StaffRecords
  import Sequences
  import Sorting
  import Text
  import Grouping

  // ---------------------------------------------------------------------------------------------
  // The staff member's customers and transactions

  function RegisteredBy(staff: Option<string>): Customer -> bool {
    (c: Customer) => c.registeredBy == staff
  }

  function RecordedBy(staff: Option<string>): Transaction -> bool {
    (tx: Transaction) => tx.recordedStaffId == staff
  }

  /** `customersOfStaff`: the customers the staff member registered, in list order */
  function CustomersOf(customers: seq<Customer>, staff: Option<string>): (r: seq<Customer>)
    ensures forall c :: c in r <==> c in customers && c.registeredBy == staff
  {
    Sequences.FilterContents(customers, RegisteredBy(staff));
    Sequences.Filter(customers, RegisteredBy(staff))
  }

  /** `staffTransactions`: the transactions the staff member recorded, in list order */
  function StaffTransactions(txs: seq<Transaction>, staff: Option<string>): (r: seq<Transaction>)
    ensures forall t :: t in r <==> t in txs && t.recordedStaffId == staff
  {
    Sequences.FilterContents(txs, RecordedBy(staff));
    Sequences.Filter(txs, RecordedBy(staff))
  }

  /** Both filters keep the order of their input: filtering a concatenation filters each part. */
  lemma FiltersKeepOrder(c1: seq<Customer>, c2: seq<Customer>, t1: seq<Transaction>, t2: seq<Transaction>,
                         staff: Option<string>)
    ensures CustomersOf(c1 + c2, staff) == CustomersOf(c1, staff) + CustomersOf(c2, staff)
    ensures StaffTransactions(t1 + t2, staff) == StaffTransactions(t1, staff) + StaffTransactions(t2, staff)
  {
    Sequences.FilterAppend(c1, c2, RegisteredBy(staff));
    Sequences.FilterAppend(t1, t2, RecordedBy(staff));
  }

  // ---------------------------------------------------------------------------------------------
  // Recent activity

  /** the comparator `time(b) - time(a)`: newer transactions first */
  predicate NewestFirst(a: Transaction, b: Transaction) {
    b.time - a.time <= 0
  }

  lemma NewestFirstIsPreorder()
    ensures Sorting.TotalPreorder(NewestFirst)
  {
  }

  /**
   * `staffTransactions.sort(...)`. The sort works in place on the filtered array, so this order is
   * also the one the transactions tab lists.
   */
  function SortedStaffTransactions(txs: seq<Transaction>, staff: Option<string>): (r: seq<Transaction>)
    ensures multiset(r) == multiset(StaffTransactions(txs, staff))
    ensures forall i, j :: 0 <= i < j < |r| ==> r[i].time >= r[j].time
  {
    NewestFirstIsPreorder();
    Sorting.SortSorted(StaffTransactions(txs, staff), NewestFirst);
    Sorting.Sort(StaffTransactions(txs, staff), NewestFirst)
  }

  /** `.slice(0, 5)` of the sorted transactions */
  function NewestStaffTransactions(txs: seq<Transaction>, staff: Option<string>): seq<Transaction> {
    Sequences.Take(SortedStaffTransactions(txs, staff), 5)
  }

  /**
   * At most five transactions, all recorded by the staff member, newest first, and none of the
   * staff member's transactions left out is newer than one that was kept.
   */
  lemma {:induction false} NewestAreNewest(txs: seq<Transaction>, staff: Option<string>)
    ensures var all := StaffTransactions(txs, staff);
            |NewestStaffTransactions(txs, staff)| == if 5 < |all| then 5 else |all|
    ensures multiset(NewestStaffTransactions(txs, staff)) <= multiset(StaffTransactions(txs, staff))
    ensures forall t :: t in NewestStaffTransactions(txs, staff) ==> t in txs && t.recordedStaffId == staff
    ensures var top := NewestStaffTransactions(txs, staff);
            forall i, j :: 0 <= i < j < |top| ==> top[i].time >= top[j].time
    ensures var top := NewestStaffTransactions(txs, staff);
            forall t, u :: t in StaffTransactions(txs, staff) && t !in top && u in top ==> u.time >= t.time
  {
    NewestCount(txs, staff);
    NewestOrdered(txs, staff);
    NewestAreDrawn(txs, staff);
    NewestKeepNewest(txs, staff);
  }

  /** five transactions are kept, or all of them when there are fewer */
  lemma NewestCount(txs: seq<Transaction>, staff: Option<string>)
    ensures var all := StaffTransactions(txs, staff);
            |NewestStaffTransactions(txs, staff)| == if 5 < |all| then 5 else |all|
  {
    assert |multiset(SortedStaffTransactions(txs, staff))| == |multiset(StaffTransactions(txs, staff))|;
  }

  /** the kept transactions, a prefix of the sorted ones, are some of the staff member's */
  lemma NewestAreDrawn(txs: seq<Transaction>, staff: Option<string>)
    ensures var sorted := SortedStaffTransactions(txs, staff);
            var top := NewestStaffTransactions(txs, staff);
            sorted == top + sorted[|top|..]
    ensures multiset(NewestStaffTransactions(txs, staff)) <= multiset(StaffTransactions(txs, staff))
    ensures forall t :: t in NewestStaffTransactions(txs, staff) ==> t in txs && t.recordedStaffId == staff
  {
    var all := StaffTransactions(txs, staff);
    var sorted := SortedStaffTransactions(txs, staff);
    var top := NewestStaffTransactions(txs, staff);
    assert sorted == top + sorted[|top|..];
    assert multiset(sorted) == multiset(top) + multiset(sorted[|top|..]);
    assert multiset(top) <= multiset(all);
    forall t | t in top
      ensures t in txs && t.recordedStaffId == staff
    {
      assert t in multiset(all);
      assert t in all;
    }
  }

  /** a transaction of the staff member that was not kept is no newer than any kept one */
  lemma NewestKeepNewest(txs: seq<Transaction>, staff: Option<string>)
    ensures var top := NewestStaffTransactions(txs, staff);
            forall t, u :: t in StaffTransactions(txs, staff) && t !in top && u in top ==> u.time >= t.time
  {
    var sorted := SortedStaffTransactions(txs, staff);
    var top := NewestStaffTransactions(txs, staff);
    var n := |top|;
    assert top == sorted[..n];
    assert forall j :: 0 <= j < n ==> sorted[j] in top;
    forall t, u | t in StaffTransactions(txs, staff) && t !in top && u in top
      ensures u.time >= t.time
    {
      assert t in multiset(sorted);
      var k :| 0 <= k < |sorted| && sorted[k] == t;
      var i :| 0 <= i < n && top[i] == u;
      assert n <= k;
    }
  }

  /** `tx.customer_name || 'Unknown'` */
  function CustomerLabel(tx: Transaction): string {
    if tx.customerName == "" then "Unknown" else tx.customerName
  }

  const DepositPrefix := "Deposit collected from "
  const WithdrawalPrefix := "Withdrawal by "
  const CommissionTitle := "New commission"

  /** the activity title chosen by the `switch` on the transaction type */
  function Title(tx: Transaction): (t: string)
    ensures tx.txType == "deposit" ==> Text.StartsWith(t, DepositPrefix) && t[|DepositPrefix|..] == CustomerLabel(tx)
    ensures tx.txType == "withdrawal" ==> Text.StartsWith(t, WithdrawalPrefix) && t[|WithdrawalPrefix|..] == CustomerLabel(tx)
    ensures tx.txType == "commission" ==> t == CommissionTitle
    ensures tx.txType !in {"deposit", "withdrawal", "commission"} ==> t == tx.txType
  {
    match tx.txType
    case "deposit" => DepositPrefix + CustomerLabel(tx)
    case "withdrawal" => WithdrawalPrefix + CustomerLabel(tx)
    case "commission" => CommissionTitle
    case _ => tx.txType
  }

  /** A deposit or withdrawal title names the customer, or "Unknown" when the name is missing. */
  lemma TitleNamesCustomer(tx: Transaction)
    requires tx.txType in {"deposit", "withdrawal"}
    ensures tx.customerName != "" ==> Text.Contains(Title(tx), tx.customerName)
    ensures tx.customerName == "" ==> Text.Contains(Title(tx), "Unknown")
    ensures Title(tx) != CommissionTitle
  {
    var prefix := if tx.txType == "deposit" then DepositPrefix else WithdrawalPrefix;
    var t := Title(tx);
    assert t == prefix + CustomerLabel(tx);
    assert Text.OccursAt(t, CustomerLabel(tx), |prefix|);
    assert t[0] == prefix[0] && CommissionTitle[0] == 'N';
  }

  /** one entry of `recentActivity`; `date` is `None` when it holds no date */
  datatype Activity = Activity(id: string, title: string, txType: string, date: Option<int>)

  /** the activity built for one transaction, with the transaction's date */
  function ActivityOf(tx: Transaction): Activity {
    Activity(tx.id, Title(tx), tx.txType, Some(tx.time))
  }

  /** as written: `transaction_date = transaction_date` assigns the empty local to itself */
  function ActivityAsWritten(tx: Transaction): Activity {
    Activity(tx.id, Title(tx), tx.txType, None)
  }

  /** `recentActivity` as the source builds it */
  function RecentActivityAsWritten(txs: seq<Transaction>, staff: Option<string>): (r: seq<Activity>)
    ensures |r| == |NewestStaffTransactions(txs, staff)|
    ensures forall i :: 0 <= i < |r| ==> r[i].date == None
  {
    var top := NewestStaffTransactions(txs, staff);
    seq(|top|, i requires 0 <= i < |top| => ActivityAsWritten(top[i]))
  }

  /** `recentActivity` with each activity carrying its transaction's date */
  function RecentActivity(txs: seq<Transaction>, staff: Option<string>): (r: seq<Activity>)
    ensures |r| <= 5 && |r| == |NewestStaffTransactions(txs, staff)|
    ensures forall i :: 0 <= i < |r| ==> r[i].date.Some?
    ensures forall i, j :: 0 <= i < j < |r| ==> r[i].date.value >= r[j].date.value
    ensures forall i :: 0 <= i < |r| ==>
              var t := NewestStaffTransactions(txs, staff)[i];
              r[i].id == t.id && r[i].title == Title(t) && r[i].txType == t.txType
  {
    NewestOrdered(txs, staff);
    Activities(NewestStaffTransactions(txs, staff))
  }

  /** the activities built for a list of transactions, in list order */
  function Activities(top: seq<Transaction>): (r: seq<Activity>)
    ensures |r| == |top| && forall i :: 0 <= i < |r| ==> r[i] == ActivityOf(top[i])
  {
    seq(|top|, i requires 0 <= i < |top| => ActivityOf(top[i]))
  }

  /** at most five kept transactions, newest first */
  lemma NewestOrdered(txs: seq<Transaction>, staff: Option<string>)
    ensures |NewestStaffTransactions(txs, staff)| <= 5
    ensures var top := NewestStaffTransactions(txs, staff);
            forall i, j :: 0 <= i < j < |top| ==> top[i].time >= top[j].time
  {
    var sorted := SortedStaffTransactions(txs, staff);
    var top := NewestStaffTransactions(txs, staff);
    assert top == sorted[..|top|];
  }

  /**
   * The list as written differs from the intended one exactly in the date: whenever the staff
   * member has a transaction, the activities carry no date at all.
   */
  lemma AsWrittenActivityLosesDate(txs: seq<Transaction>, staff: Option<string>)
    ensures |RecentActivityAsWritten(txs, staff)| == |RecentActivity(txs, staff)|
    ensures forall i :: 0 <= i < |RecentActivity(txs, staff)| ==>
              RecentActivityAsWritten(txs, staff)[i] == RecentActivity(txs, staff)[i].(date := None)
    ensures |StaffTransactions(txs, staff)| > 0 ==> RecentActivityAsWritten(txs, staff) != RecentActivity(txs, staff)
  {
    NewestCount(txs, staff);
    if |StaffTransactions(txs, staff)| > 0 {
      assert RecentActivityAsWritten(txs, staff)[0].date != RecentActivity(txs, staff)[0].date;
    }
  }

  // ---------------------------------------------------------------------------------------------
  // Customers by account number

  /** the comparator `a.account_number.localeCompare(b.account_number)` */
  predicate ByAccount(a: Customer, b: Customer) {
    Text.StrLe(a.accountNumber, b.accountNumber)
  }

  lemma ByAccountIsPreorder()
    ensures Sorting.TotalPreorder(ByAccount)
  {
    forall a: Customer, b: Customer
      ensures ByAccount(a, b) || ByAccount(b, a)
    {
      Text.StrLeTotal(a.accountNumber, b.accountNumber);
    }
    forall a: Customer, b: Customer, c: Customer | ByAccount(a, b) && ByAccount(b, c)
      ensures ByAccount(a, c)
    {
      Text.StrLeTransitive(a.accountNumber, b.accountNumber, c.accountNumber);
    }
  }

  /** the customers tab: a sorted copy of `customersOfStaff` */
  function CustomersByAccount(customers: seq<Customer>, staff: Option<string>): (r: seq<Customer>)
    ensures multiset(r) == multiset(CustomersOf(customers, staff))
    ensures forall i, j :: 0 <= i < j < |r| ==> Text.StrLe(r[i].accountNumber, r[j].accountNumber)
  {
    ByAccountIsPreorder();
    Sorting.SortSorted(CustomersOf(customers, staff), ByAccount);
    Sorting.Sort(CustomersOf(customers, staff), ByAccount)
  }

  // ---------------------------------------------------------------------------------------------
  // Reports by day

  const MillisPerDay := 86400000

  /** `new Date(tx.transaction_date).toDateString()`: the day of the timestamp */
  function Day(time: int): int {
    time / MillisPerDay
  }

  function DayOf(tx: Transaction): int {
    Day(tx.time)
  }

  /**
   * The deposit test as JavaScript groups it: `&&` binds tighter than `||`, so an approved,
   * undeleted deposit counts whoever recorded it, and a completed transaction the staff member
   * collected as mobile banker counts whatever its type and even when deleted.
   */
  function CountsAsDeposit(tx: Transaction, staff: Option<string>): (b: bool)
    ensures tx.txType == "deposit" && !tx.isDeleted && tx.status == "approved" ==> b
    ensures tx.status == "completed" && tx.mobileBankerId == staff ==> b
    ensures b ==> tx.status in {"approved", "completed"}
    ensures tx.status == "approved" ==> (b <==> tx.txType == "deposit" && !tx.isDeleted)
    ensures tx.status == "completed" ==> (b <==> tx.mobileBankerId == staff)
  {
    (tx.txType == "deposit" && !tx.isDeleted && tx.status == "approved")
    || (tx.status == "completed" && tx.mobileBankerId == staff)
  }

  /** the withdrawal test, reached only when the deposit test failed */
  function CountsAsWithdrawal(tx: Transaction, staff: Option<string>): (b: bool)
    ensures b ==> !CountsAsDeposit(tx, staff)
    ensures b ==> tx.txType == "withdrawal" && !tx.isDeleted && tx.status == "approved"
    ensures b ==> tx.recordedStaffId == staff
    ensures tx.txType == "withdrawal" && !tx.isDeleted && tx.status == "approved" && tx.recordedStaffId == staff ==> b
  {
    !CountsAsDeposit(tx, staff)
    && tx.txType == "withdrawal" && !tx.isDeleted && tx.status == "approved" && tx.recordedStaffId == staff
  }

  datatype DayTotals = DayTotals(deposits: real, withdrawals: real)

  /** one transaction's contribution to its day */
  function AddTo(totals: DayTotals, tx: Transaction, staff: Option<string>): DayTotals {
    if CountsAsDeposit(tx, staff) then totals.(deposits := totals.deposits + tx.amount)
    else if CountsAsWithdrawal(tx, staff) then totals.(withdrawals := totals.withdrawals + tx.amount)
    else totals
  }

  /** `reportsMap` after the given transactions */
  function DailyTotals(txs: seq<Transaction>, staff: Option<string>): map<int, DayTotals> {
    if txs == [] then map[]
    else
      var acc := DailyTotals(txs[..|txs| - 1], staff);
      var tx := txs[|txs| - 1];
      var d := DayOf(tx);
      acc[d := AddTo(if d in acc then acc[d] else DayTotals(0.0, 0.0), tx, staff)]
  }

  /** the order in which `reportsMap` first received each day */
  function DayOrder(txs: seq<Transaction>): seq<int> {
    Grouping.Order(txs, DayOf)
  }

  /** `transactions.forEach(...)`: one day entry created on first use, then one total raised */
  method BuildReportsMap(txs: seq<Transaction>, staff: Option<string>) returns (reports: map<int, DayTotals>, days: seq<int>)
    ensures reports == DailyTotals(txs, staff) && days == DayOrder(txs)
  {
    reports := map[];
    days := [];
    for i := 0 to |txs|
      invariant reports == DailyTotals(txs[..i], staff) && days == DayOrder(txs[..i])
      invariant forall d :: d in reports <==> d in days
    {
      assert txs[..i + 1] == txs[..i] + [txs[i]];
      DailyTotalsSnoc(txs[..i], txs[i], staff);
      Grouping.OrderSnoc(txs[..i], txs[i], DayOf);
      reports, days := RecordTransaction(reports, days, txs[i], staff);
    }
    assert txs[..|txs|] == txs;
  }

  /** the `forEach` callback for one transaction */
  method RecordTransaction(reports: map<int, DayTotals>, days: seq<int>, tx: Transaction, staff: Option<string>)
    returns (reports': map<int, DayTotals>, days': seq<int>)
    requires forall d :: d in reports <==> d in days
    ensures var d := DayOf(tx);
            reports' == reports[d := AddTo(if d in reports then reports[d] else DayTotals(0.0, 0.0), tx, staff)]
    ensures days' == if DayOf(tx) in days then days else days + [DayOf(tx)]
    ensures forall d :: d in reports' <==> d in days'
  {
    reports' := reports;
    days' := days;
    var dateKey := DayOf(tx);
    if dateKey !in reports' {
      reports' := reports'[dateKey := DayTotals(0.0, 0.0)];
      days' := days' + [dateKey];
    }
    if CountsAsDeposit(tx, staff) {
      reports' := reports'[dateKey := reports'[dateKey].(deposits := reports'[dateKey].deposits + tx.amount)];
    } else if CountsAsWithdrawal(tx, staff) {
      reports' := reports'[dateKey := reports'[dateKey].(withdrawals := reports'[dateKey].withdrawals + tx.amount)];
    }
  }

  /** the amount a transaction adds to its day's deposits */
  function DepositValue(staff: Option<string>): Transaction -> real {
    (tx: Transaction) => if CountsAsDeposit(tx, staff) then tx.amount else 0.0
  }

  /** the amount a transaction adds to its day's withdrawals */
  function WithdrawalValue(staff: Option<string>): Transaction -> real {
    (tx: Transaction) => if CountsAsWithdrawal(tx, staff) then tx.amount else 0.0
  }

  /**
   * Day d has an entry exactly when some transaction, of any staff member, falls on it; its totals
   * are the sums of the deposit and withdrawal amounts counted on that day.
   */
  lemma {:induction false} DailyTotalsAt(txs: seq<Transaction>, staff: Option<string>, d: int)
    ensures d in DailyTotals(txs, staff) <==> d in Grouping.KeysOf(txs, DayOf)
    ensures d in DailyTotals(txs, staff) ==>
              DailyTotals(txs, staff)[d]
              == DayTotals(Grouping.GroupTotal(txs, DayOf, DepositValue(staff), d),
                           Grouping.GroupTotal(txs, DayOf, WithdrawalValue(staff), d))
  {
    DailyTotalsDays(txs, staff, d);
    if txs != [] {
      var init := txs[..|txs| - 1];
      var tx := txs[|txs| - 1];
      assert txs == init + [tx];
      DailyTotalsAt(init, staff, d);
      if DayOf(tx) == d {
        SameDayStep(init, tx, staff);
      } else {
        OtherDayStep(init, tx, staff, d);
      }
    }
  }

  /** day d's entry holds the sums of the amounts counted on day d */
  ghost predicate TotalsMatch(txs: seq<Transaction>, staff: Option<string>, d: int) {
    d in DailyTotals(txs, staff) ==>
      DailyTotals(txs, staff)[d]
      == DayTotals(Grouping.GroupTotal(txs, DayOf, DepositValue(staff), d),
                   Grouping.GroupTotal(txs, DayOf, WithdrawalValue(staff), d))
  }

  /** a transaction on another day leaves day d's entry and sums alone */
  lemma OtherDayStep(init: seq<Transaction>, tx: Transaction, staff: Option<string>, d: int)
    requires DayOf(tx) != d && TotalsMatch(init, staff, d)
    ensures TotalsMatch(init + [tx], staff, d)
  {
    DailyTotalsSnoc(init, tx, staff);
    Grouping.GroupTotalAppend(init, tx, DayOf, DepositValue(staff), d);
    Grouping.GroupTotalAppend(init, tx, DayOf, WithdrawalValue(staff), d);
  }

  /** a transaction adds its counted amounts to its own day's entry, created at zero if need be */
  lemma SameDayStep(init: seq<Transaction>, tx: Transaction, staff: Option<string>)
    requires TotalsMatch(init, staff, DayOf(tx))
    requires DayOf(tx) in DailyTotals(init, staff) <==> DayOf(tx) in Grouping.KeysOf(init, DayOf)
    ensures TotalsMatch(init + [tx], staff, DayOf(tx))
  {
    var d := DayOf(tx);
    var acc := DailyTotals(init, staff);
    DailyTotalsSnoc(init, tx, staff);
    Grouping.GroupTotalAppend(init, tx, DayOf, DepositValue(staff), d);
    Grouping.GroupTotalAppend(init, tx, DayOf, WithdrawalValue(staff), d);
    if d !in acc {
      Grouping.AbsentKeyTotal(init, DayOf, DepositValue(staff), d);
      Grouping.AbsentKeyTotal(init, DayOf, WithdrawalValue(staff), d);
    }
    AddToValues(if d in acc then acc[d] else DayTotals(0.0, 0.0), tx, staff);
  }

  /** the days with an entry are the days of the transactions */
  lemma {:induction false} DailyTotalsDays(txs: seq<Transaction>, staff: Option<string>, d: int)
    ensures d in DailyTotals(txs, staff) <==> d in Grouping.KeysOf(txs, DayOf)
  {
    if txs != [] {
      var init := txs[..|txs| - 1];
      var tx := txs[|txs| - 1];
      assert txs == init + [tx];
      DailyTotalsDays(init, staff, d);
      Grouping.KeysOfAppend(init, tx, DayOf);
      DailyTotalsSnoc(init, tx, staff);
    }
  }

  /** appending a transaction updates the entry of its day only */
  lemma DailyTotalsSnoc(init: seq<Transaction>, tx: Transaction, staff: Option<string>)
    ensures var acc := DailyTotals(init, staff);
            DailyTotals(init + [tx], staff)
            == acc[DayOf(tx) := AddTo(if DayOf(tx) in acc then acc[DayOf(tx)] else DayTotals(0.0, 0.0), tx, staff)]
  {
    assert (init + [tx])[..|init|] == init;
  }

  /** a transaction adds its deposit value to the deposits and its withdrawal value to the withdrawals */
  lemma AddToValues(totals: DayTotals, tx: Transaction, staff: Option<string>)
    ensures AddTo(totals, tx, staff)
            == DayTotals(totals.deposits + DepositValue(staff)(tx), totals.withdrawals + WithdrawalValue(staff)(tx))
  {
  }

  /** A day on which nothing counts for the staff member still has an entry, with zero totals. */
  lemma {:induction false} QuietDayIsZero(txs: seq<Transaction>, staff: Option<string>, d: int)
    requires forall tx :: tx in txs && DayOf(tx) == d ==> !CountsAsDeposit(tx, staff) && !CountsAsWithdrawal(tx, staff)
    ensures d in DailyTotals(txs, staff) ==> DailyTotals(txs, staff)[d] == DayTotals(0.0, 0.0)
  {
    if txs != [] {
      var init := txs[..|txs| - 1];
      assert forall tx :: tx in init ==> tx in txs;
      QuietDayIsZero(init, staff, d);
    }
  }

  /** one report card; `id` is the entry's position in `Object.entries(reportsMap)` */
  datatype Report = Report(id: nat, day: int, totalDeposits: real, totalWithdrawals: real)

  /** `Object.entries(reportsMap).map(([date, data], idx) => ...)` */
  function ReportEntries(reports: map<int, DayTotals>, days: seq<int>): (r: seq<Report>)
    requires forall i :: 0 <= i < |days| ==> days[i] in reports
    ensures |r| == |days|
    ensures forall i :: 0 <= i < |r| ==> r[i] == Report(i, days[i], reports[days[i]].deposits, reports[days[i]].withdrawals)
  {
    seq(|days|, i requires 0 <= i < |days| =>
      Report(i, days[i], reports[days[i]].deposits, reports[days[i]].withdrawals))
  }

  /** the comparator `b.generatedDate - a.generatedDate`: later days first */
  predicate LaterDayFirst(a: Report, b: Report) {
    b.day - a.day <= 0
  }

  function ReportDay(r: Report): int {
    r.day
  }

  /** the day entries in the order the days were first met */
  function DayEntries(txs: seq<Transaction>, staff: Option<string>): seq<Report> {
    DayOrderInReports(txs, staff);
    ReportEntries(DailyTotals(txs, staff), DayOrder(txs))
  }

  /** the reports tab: the day entries, latest day first */
  function ReportsList(txs: seq<Transaction>, staff: Option<string>): seq<Report> {
    Sorting.Sort(DayEntries(txs, staff), LaterDayFirst)
  }

  lemma {:induction false} DayOrderInReports(txs: seq<Transaction>, staff: Option<string>)
    ensures forall d :: d in DayOrder(txs) ==> d in DailyTotals(txs, staff)
    ensures forall i :: 0 <= i < |DayOrder(txs)| ==> DayOrder(txs)[i] in DailyTotals(txs, staff)
  {
    forall d | d in DayOrder(txs)
      ensures d in DailyTotals(txs, staff)
    {
      Grouping.OrderIsKeys(txs, DayOf);
      DailyTotalsAt(txs, staff, d);
    }
  }

  /** the properties a day entry has, wherever it ends up */
  ghost predicate IsDayReport(txs: seq<Transaction>, staff: Option<string>, n: nat, x: Report) {
    && x.day in DailyTotals(txs, staff)
    && x.totalDeposits == DailyTotals(txs, staff)[x.day].deposits
    && x.totalWithdrawals == DailyTotals(txs, staff)[x.day].withdrawals
    && x.id < n
  }

  lemma DayEntriesFacts(txs: seq<Transaction>, staff: Option<string>)
    ensures Sorting.DistinctKeys(DayEntries(txs, staff), ReportDay)
    ensures forall d :: d in Grouping.KeysOf(txs, DayOf) <==> exists x :: x in DayEntries(txs, staff) && x.day == d
    ensures forall x :: x in DayEntries(txs, staff) ==> IsDayReport(txs, staff, |DayEntries(txs, staff)|, x)
  {
    var e := DayEntries(txs, staff);
    var days := DayOrder(txs);
    Grouping.OrderDistinct(txs, DayOf);
    Grouping.OrderIsKeys(txs, DayOf);
    forall d | d in Grouping.KeysOf(txs, DayOf)
      ensures exists x :: x in e && x.day == d
    {
      var k :| 0 <= k < |days| && days[k] == d;
      assert e[k] in e;
    }
    DayOrderInReports(txs, staff);
    forall x | x in e
      ensures IsDayReport(txs, staff, |e|, x)
    {
      var k :| 0 <= k < |e| && e[k] == x;
    }
  }

  lemma ReportsListDays(txs: seq<Transaction>, staff: Option<string>)
    ensures forall d :: d in Grouping.KeysOf(txs, DayOf) <==> exists x :: x in ReportsList(txs, staff) && x.day == d
  {
    DayEntriesFacts(txs, staff);
    Sorting.SortSameMembers(DayEntries(txs, staff), LaterDayFirst);
  }

  lemma ReportsListOrder(txs: seq<Transaction>, staff: Option<string>)
    ensures var r := ReportsList(txs, staff);
            forall i, j :: 0 <= i < j < |r| ==> r[i].day > r[j].day
  {
    var e := DayEntries(txs, staff);
    var r := ReportsList(txs, staff);
    DayEntriesFacts(txs, staff);
    Sorting.SortSorted(e, LaterDayFirst);
    Sorting.SortKeepsKeysDistinct(e, LaterDayFirst, ReportDay);
    forall i, j | 0 <= i < j < |r|
      ensures r[i].day > r[j].day
    {
      assert LaterDayFirst(r[i], r[j]);
      assert ReportDay(r[i]) != ReportDay(r[j]);
    }
  }

  lemma ReportsListEntries(txs: seq<Transaction>, staff: Option<string>)
    ensures forall x :: x in ReportsList(txs, staff) ==> IsDayReport(txs, staff, |ReportsList(txs, staff)|, x)
  {
    DayEntriesFacts(txs, staff);
    Sorting.SortSameMembers(DayEntries(txs, staff), LaterDayFirst);
  }

  /**
   * The reports list holds one report per day some transaction falls on, strictly latest first,
   * each with that day's totals, and each id an index below n (its position among the unsorted entries).
   */
  lemma ReportsListFacts(txs: seq<Transaction>, staff: Option<string>)
    ensures var r := ReportsList(txs, staff);
            forall d :: d in Grouping.KeysOf(txs, DayOf) <==> exists x :: x in r && x.day == d
    ensures var r := ReportsList(txs, staff);
            forall i, j :: 0 <= i < j < |r| ==> r[i].day > r[j].day
    ensures var r := ReportsList(txs, staff);
            forall x :: x in r ==> IsDayReport(txs, staff, |r|, x)
  {
    ReportsListDays(txs, staff);
    ReportsListOrder(txs, staff);
    ReportsListEntries(txs, staff);
  }
}
