/**
 * The profit-and-loss statement: income from revenue and commission, the expenses grouped by
 * category, profit and margin, the category breakdown sorted by amount with percentage shares,
 * the scale of the trend chart and the expense-to-income verdict.
 */
module ProfitLoss {
  import opened Wrappers
  import Sequences
  import Sorting
  import Grouping
  import JsValues

  // ---------------------------------------------------------------------------------------------
  // JavaScript division

  /** a JavaScript number as far as a division can go: finite, an infinity, or NaN */
  datatype Num = Finite(v: real) | PosInf | NegInf | NaN

  /** `a / b`: a finite quotient unless b is 0, then ±Infinity, or NaN for `0 / 0` */
  function Div(a: real, b: real): (q: Num)
    ensures q.Finite? <==> b != 0.0
    ensures q.Finite? ==> q.v * b == a
    ensures b == 0.0 ==> (q == PosInf <==> a > 0.0) && (q == NegInf <==> a < 0.0) && (q == NaN <==> a == 0.0)
  {
    if b != 0.0 then Finite(a / b)
    else if a > 0.0 then PosInf
    else if a < 0.0 then NegInf
    else NaN
  }

  /** `x * 100` */
  function Percent(x: Num): Num {
    match x
    case Finite(v) => Finite(v * 100.0)
    case _ => x
  }

  /** `x < bound`: -Infinity is below every number; Infinity and NaN are not */
  predicate Below(x: Num, bound: real) {
    match x
    case Finite(v) => v < bound
    case NegInf => true
    case _ => false
  }

  // ---------------------------------------------------------------------------------------------
  // Income, profit and margin

  /** one expense record; `category` is "" when the record has none */
  datatype Expense = Expense(category: string, amount: real)

  /** `expense.category || 'Other'` */
  function CategoryOf(e: Expense): (c: string)
    ensures c != ""
    ensures e.category != "" ==> c == e.category
    ensures e.category == "" ==> c == "Other"
  {
    if e.category == "" then "Other" else e.category
  }

  /** the profit margin in percent: `profit / income * 100` when income is positive, else 0 */
  function Margin(profit: real, income: real): (m: real)
    ensures income > 0.0 ==> m * income == profit * 100.0
    ensures income <= 0.0 ==> m == 0.0
  {
    if income > 0.0 then (profit / income) * 100.0 else 0.0
  }

  datatype PLData = PLData(
    totalRevenue: real,
    totalCommission: real,
    totalIncome: real,
    expensesByCategory: map<string, real>,
    categoryOrder: seq<string>,
    totalExpenses: real,
    grossProfit: real,
    netProfitMargin: real)

  // ---------------------------------------------------------------------------------------------
  // Expenses by category

  function AmountOf(e: Expense): real {
    e.amount
  }

  /** the dictionary the reduce builds: category -> running total */
  function Totals(expenses: seq<Expense>): map<string, real> {
    Grouping.Totals(expenses, CategoryOf, AmountOf)
  }

  /**
   * the order in which the reduce first wrote each category: the object's creation order, which
   * `Object.entries` re-lists by `JsValues.PropertyOrder`
   */
  function CategoryOrder(expenses: seq<Expense>): seq<string> {
    Grouping.Order(expenses, CategoryOf)
  }

  /** the sum of the amounts of the expenses filed under category c */
  function CategoryTotal(expenses: seq<Expense>, c: string): real {
    Grouping.GroupTotal(expenses, CategoryOf, AmountOf, c)
  }

  /** the categories some expense is filed under */
  ghost function Categories(expenses: seq<Expense>): set<string> {
    Grouping.KeysOf(expenses, CategoryOf)
  }

  /** the `reduce` over the expenses, one dictionary write per expense */
  method ExpensesByCategory(expenses: seq<Expense>) returns (acc: map<string, real>, order: seq<string>)
    ensures acc == Totals(expenses) && order == CategoryOrder(expenses)
  {
    acc := map[];
    order := [];
    for i := 0 to |expenses|
      invariant acc == Totals(expenses[..i]) && order == CategoryOrder(expenses[..i])
    {
      assert expenses[..i + 1][..i] == expenses[..i];
      var category := CategoryOf(expenses[i]);
      var previous := if category in acc then acc[category] else 0.0;
      if category !in order {
        order := order + [category];
      }
      acc := acc[category := previous + expenses[i].amount];
    }
    assert expenses[..|expenses|] == expenses;
  }

  /**
   * The dictionary has a key for exactly the categories some expense is filed under (a missing
   * category under "Other"), each holding the sum of that category's amounts; the creation order
   * holds each category once; and the category totals add up to the sum of all amounts.
   */
  lemma CategorySums(expenses: seq<Expense>)
    ensures forall c :: c in Totals(expenses) <==> c in Categories(expenses)
    ensures forall c :: c in Totals(expenses) ==> Totals(expenses)[c] == CategoryTotal(expenses, c)
    ensures forall c :: c in CategoryOrder(expenses) <==> c in Categories(expenses)
    ensures forall i, j :: 0 <= i < j < |CategoryOrder(expenses)| ==> CategoryOrder(expenses)[i] != CategoryOrder(expenses)[j]
    ensures forall c :: c in CategoryOrder(expenses) ==> c in Totals(expenses)
    ensures Grouping.SumOver(CategoryOrder(expenses), Totals(expenses))
            == Sequences.Sum(Grouping.Values(expenses, AmountOf))
  {
    Grouping.TotalsAreGroupSums(expenses, CategoryOf, AmountOf);
    Grouping.OrderIsKeys(expenses, CategoryOf);
    Grouping.OrderDistinct(expenses, CategoryOf);
    Grouping.TotalsAddUp(expenses, CategoryOf, AmountOf);
  }

  // ---------------------------------------------------------------------------------------------
  // The statement

  /** `calculatePLData`: a missing commission counts as 0; profit uses the reported monthly expenses */
  method CalculatePLData(monthlyRevenue: real, monthlyExpenses: real, commission: Option<real>,
                         expenses: seq<Expense>) returns (d: PLData)
    ensures d.totalRevenue == monthlyRevenue && d.totalExpenses == monthlyExpenses
    ensures d.totalCommission == (if commission.Some? then commission.value else 0.0)
    ensures d.totalIncome == d.totalRevenue + d.totalCommission
    ensures d.grossProfit == d.totalIncome - d.totalExpenses
    ensures d.totalIncome > 0.0 ==> d.netProfitMargin * d.totalIncome == d.grossProfit * 100.0
    ensures d.totalIncome <= 0.0 ==> d.netProfitMargin == 0.0
    ensures d.expensesByCategory == Totals(expenses) && d.categoryOrder == CategoryOrder(expenses)
  {
    var totalRevenue := monthlyRevenue;
    var totalCommission := commission.GetOr(0.0);
    var totalIncome := totalRevenue + totalCommission;
    var byCategory, order := ExpensesByCategory(expenses);
    var totalExpenses := monthlyExpenses;
    var grossProfit := totalIncome - totalExpenses;
    var netProfitMargin := Margin(grossProfit, totalIncome);
    d := PLData(totalRevenue, totalCommission, totalIncome, byCategory, order, totalExpenses, grossProfit, netProfitMargin);
  }

  // ---------------------------------------------------------------------------------------------
  // The category breakdown

  datatype ExpenseCategory = ExpenseCategory(category: string, amount: real, percentage: Num)

  /** the comparator `b.amount - a.amount`: larger amounts first */
  predicate ByAmountDesc(a: ExpenseCategory, b: ExpenseCategory) {
    b.amount - a.amount <= 0.0
  }

  lemma ByAmountDescIsPreorder()
    ensures Sorting.TotalPreorder(ByAmountDesc)
  {
  }

  /** `Object.entries(acc).map(...)`, before the sort */
  function Entries(acc: map<string, real>, order: seq<string>, totalExpenses: real): (r: seq<ExpenseCategory>)
    requires forall k :: k in order ==> k in acc
    ensures |r| == |order|
    ensures forall i :: 0 <= i < |r| ==> r[i].category == order[i] && r[i].amount == acc[order[i]]
  {
    seq(|order|, i requires 0 <= i < |order| =>
      ExpenseCategory(order[i], acc[order[i]], Percent(Div(acc[order[i]], totalExpenses))))
  }

  /** the order `Object.entries(plData.expensesByCategory)` lists the categories in */
  function Listing(d: PLData): seq<string> {
    JsValues.PropertyOrder(d.categoryOrder)
  }

  /** `Object.entries(...).map(...)` of the statement, in listing order */
  function ListedEntries(d: PLData): seq<ExpenseCategory>
    requires WellFormed(d)
  {
    JsValues.PropertyOrderMembers(d.categoryOrder);
    Entries(d.expensesByCategory, Listing(d), d.totalExpenses)
  }

  /** `expenseCategories`: the entries sorted by amount, largest first, ties kept in listing order */
  function ExpenseCategories(d: PLData): seq<ExpenseCategory>
    requires WellFormed(d)
  {
    Sorting.Sort(ListedEntries(d), ByAmountDesc)
  }

  function CategoryName(x: ExpenseCategory): string {
    x.category
  }

  /** every key of the statement's order is a key of its dictionary */
  predicate WellFormed(d: PLData) {
    forall k :: k in d.categoryOrder ==> k in d.expensesByCategory
  }

  lemma CalculatedIsWellFormed(d: PLData, expenses: seq<Expense>)
    requires d.expensesByCategory == Totals(expenses) && d.categoryOrder == CategoryOrder(expenses)
    ensures WellFormed(d)
  {
    Grouping.TotalsKeysAreOrder(expenses, CategoryOf, AmountOf);
  }

  /** The breakdown is sorted by amount, largest first, and is a permutation of the entries. */
  lemma BreakdownSorted(d: PLData)
    requires WellFormed(d)
    ensures |ExpenseCategories(d)| == |d.categoryOrder|
    ensures multiset(ExpenseCategories(d)) == multiset(ListedEntries(d))
    ensures forall i, j :: 0 <= i < j < |ExpenseCategories(d)| ==>
              ExpenseCategories(d)[i].amount >= ExpenseCategories(d)[j].amount
  {
    var r := ExpenseCategories(d);
    JsValues.PropertyOrderMembers(d.categoryOrder);
    ByAmountDescIsPreorder();
    Sorting.SortSorted(ListedEntries(d), ByAmountDesc);
    forall i, j | 0 <= i < j < |r|
      ensures r[i].amount >= r[j].amount
    {
      assert ByAmountDesc(r[i], r[j]);
    }
  }

  /** No category appears twice in the breakdown when none appears twice in the key order. */
  lemma BreakdownDistinct(d: PLData)
    requires WellFormed(d)
    requires forall i, j :: 0 <= i < j < |d.categoryOrder| ==> d.categoryOrder[i] != d.categoryOrder[j]
    ensures forall i, j :: 0 <= i < j < |ExpenseCategories(d)| ==>
              ExpenseCategories(d)[i].category != ExpenseCategories(d)[j].category
  {
    var entries := ListedEntries(d);
    var r := ExpenseCategories(d);
    assert Sequences.Distinct(d.categoryOrder);
    JsValues.PropertyOrderFacts(d.categoryOrder);
    assert Sequences.Distinct(Listing(d));
    assert Sorting.DistinctKeys(entries, CategoryName);
    Sorting.SortKeepsKeysDistinct(entries, ByAmountDesc, CategoryName);
    forall i, j | 0 <= i < j < |r|
      ensures r[i].category != r[j].category
    {
      assert CategoryName(r[i]) != CategoryName(r[j]);
    }
  }

  /**
   * Each entry of the breakdown is a category of the dictionary with its amount and its share
   * `amount / totalExpenses * 100` (±Infinity or NaN when the total is 0), and every category of
   * the dictionary has an entry.
   */
  lemma BreakdownEntries(d: PLData)
    requires WellFormed(d)
    ensures forall x :: x in ExpenseCategories(d) ==>
              && x.category in d.categoryOrder
              && x.amount == d.expensesByCategory[x.category]
              && x.percentage == Percent(Div(x.amount, d.totalExpenses))
    ensures forall c :: c in d.categoryOrder ==> exists x :: x in ExpenseCategories(d) && x.category == c
  {
    BreakdownFromEntries(d);
    BreakdownCovers(d);
  }

  /** every entry of the breakdown is one of the entries built from the dictionary */
  lemma BreakdownFromEntries(d: PLData)
    requires WellFormed(d)
    ensures forall x :: x in ExpenseCategories(d) ==>
              && x.category in d.categoryOrder
              && x.amount == d.expensesByCategory[x.category]
              && x.percentage == Percent(Div(x.amount, d.totalExpenses))
  {
    var entries := ListedEntries(d);
    Sorting.SortSameMembers(entries, ByAmountDesc);
    JsValues.PropertyOrderMembers(d.categoryOrder);
    forall x | x in entries
      ensures x.category in d.categoryOrder && x.percentage == Percent(Div(x.amount, d.totalExpenses))
    {
      var i :| 0 <= i < |entries| && entries[i] == x;
      assert x.category == Listing(d)[i];
    }
  }

  /** every category of the dictionary has an entry in the breakdown */
  lemma BreakdownCovers(d: PLData)
    requires WellFormed(d)
    ensures forall c :: c in d.categoryOrder ==> exists x :: x in ExpenseCategories(d) && x.category == c
  {
    var entries := ListedEntries(d);
    Sorting.SortSameMembers(entries, ByAmountDesc);
    JsValues.PropertyOrderMembers(d.categoryOrder);
    forall c | c in d.categoryOrder
      ensures exists x :: x in ExpenseCategories(d) && x.category == c
    {
      assert c in Listing(d);
      var i :| 0 <= i < |Listing(d)| && Listing(d)[i] == c;
      assert entries[i] in entries;
    }
  }

  /**
   * For the statement of a list of expenses, the breakdown has one entry for each category an
   * expense is filed under, no category twice, each with that category's total.
   */
  lemma ExpenseCategoriesFacts(d: PLData, expenses: seq<Expense>)
    requires d.expensesByCategory == Totals(expenses) && d.categoryOrder == CategoryOrder(expenses)
    ensures WellFormed(d)
    ensures forall x :: x in ExpenseCategories(d) ==>
              x.category in Categories(expenses) && x.amount == CategoryTotal(expenses, x.category)
    ensures forall c :: c in Categories(expenses) ==> exists x :: x in ExpenseCategories(d) && x.category == c
    ensures forall i, j :: 0 <= i < j < |ExpenseCategories(d)| ==>
              ExpenseCategories(d)[i].category != ExpenseCategories(d)[j].category
  {
    CalculatedIsWellFormed(d, expenses);
    CategorySums(expenses);
    BreakdownEntries(d);
    BreakdownDistinct(d);
  }

  /** When the total expenses are not 0, each share is the plain percentage of the total. */
  lemma PercentageOfTotal(amount: real, totalExpenses: real)
    requires totalExpenses != 0.0
    ensures Percent(Div(amount, totalExpenses)) == Finite(amount / totalExpenses * 100.0)
  {
  }

  // ---------------------------------------------------------------------------------------------
  // Trend chart and insights

  datatype TrendRow = TrendRow(month: string, revenue: real, expenses: real, profit: real)

  function Max(a: real, b: real): real {
    if a >= b then a else b
  }

  /** `Math.max(...rows.map(m => Math.max(m.revenue, m.expenses)))` over the chart's rows */
  function MaxValue(rows: seq<TrendRow>): (m: real)
    requires |rows| > 0
    ensures forall i :: 0 <= i < |rows| ==> m >= rows[i].revenue && m >= rows[i].expenses
    ensures exists i :: 0 <= i < |rows| && (m == rows[i].revenue || m == rows[i].expenses)
  {
    var here := Max(rows[0].revenue, rows[0].expenses);
    if |rows| == 1 then here
    else
      var rest := MaxValue(rows[1..]);
      assert forall i :: 1 <= i < |rows| ==> rows[i] == rows[1..][i - 1];
      Max(here, rest)
  }

  const HealthyRatio := "Healthy ratio"
  const ConsiderOptimization := "Consider optimization"

  /** the verdict under the expense-to-revenue ratio: `(expenses / income) * 100 < 70` */
  function RatioVerdict(totalExpenses: real, totalIncome: real): string {
    if Below(Percent(Div(totalExpenses, totalIncome)), 70.0) then HealthyRatio else ConsiderOptimization
  }

  /**
   * The verdict is "Healthy ratio" exactly when expenses are below 70% of a positive income, above
   * 70% of a negative income, or negative against no income at all (`-Infinity < 70`).
   */
  lemma RatioVerdictIff(totalExpenses: real, totalIncome: real)
    ensures RatioVerdict(totalExpenses, totalIncome) == HealthyRatio <==>
      || (totalIncome > 0.0 && totalExpenses * 100.0 < 70.0 * totalIncome)
      || (totalIncome < 0.0 && totalExpenses * 100.0 > 70.0 * totalIncome)
      || (totalIncome == 0.0 && totalExpenses < 0.0)
  {
    if totalIncome != 0.0 {
      var q := totalExpenses / totalIncome;
      assert q * totalIncome == totalExpenses;
      if totalIncome > 0.0 {
        assert q * 100.0 < 70.0 <==> q * 100.0 * totalIncome < 70.0 * totalIncome;
      } else {
        assert q * 100.0 < 70.0 <==> q * 100.0 * totalIncome > 70.0 * totalIncome;
      }
    }
  }
}
