# Microfinance dashboard: the logic inside the components

This project models the deterministic logic inside a React dashboard for a savings-and-loans
("susu") company and proves properties of it. Each part of the logic has its own module:

- **LoanCalculator**: the new-loan calculator. It covers the fixed, reducing-balance and flat
  interest methods, the month-by-month repayment schedule, and the totals (interest, repayment,
  monthly payment, effective rate, outstanding balance, maturity date). The loops that build the
  schedule are methods proved against recursive specification functions.
- **LoanProperties**: the algebra of those schedules.
  - Each schedule has exactly one row per month.
  - Every row's payment is its principal part plus its interest part.
  - Balances fall strictly and end at zero.
  - The columns sum to the loan, to the total interest and to the total repayment.
  - For the reducing-balance method, each month's interest is charged on the previous balance.
  - The flat rate is the effective rate, and flat equals fixed over twelve months.
- **LoanForm**: the form around the calculator.
  - The recompute gate.
  - `validateForm`, which fills an error dictionary key by key.
  - The group-member list: add with duplicate rejection, remove by id, and the total share.
- **ProfitLoss**: the profit-and-loss statement.
  - Expenses grouped by category in a dictionary that a `reduce` mutates.
  - Income, profit and the margin, which is guarded against zero income.
  - The category breakdown: listed in `Object.entries` order, then stably sorted by amount, with
    JavaScript's division by zero.
  - The scale of the trend chart and the expense-ratio verdict.
- **StaffDetail**: the staff detail modal.
  - The customer and transaction filters.
  - The five newest activities with their titles.
  - The customer list sorted by account number.
  - The per-day report dictionary built by a `forEach`, including the operator precedence of its
    deposit test.
- **DashboardLayout**: the permission-dependent navigation menu, the "active" prefix rule, the page
  title, and the sidebar state machine (a class over `isSidebarOpen`, `isSidebarCollapsed` and
  `openFinance`).
- **Password pages**: the three password policies and their submit handlers.
  - AllStaffTab (admin reset) gives the first failing message.
  - SecurityTab checks four flags; it also merges the profile into the stored user.
  - ForcePasswordChange checks five flags, including a special character.
  - Each submit handler is split at its `await` into a Begin step and a Finish step, so that
    `isSubmitting` and the outcome of the call can be observed.
- **Staff lists**:
  - OtherStaffTab: update, permission update and delete by id, the permission badges and the
    checkbox toggle.
  - StaffPage: the two role filters, which overlap, and the selected member's transactions.
  - StaffContext: the record normaliser with its `||` defaults.
- **Helper modules**: Wrappers, Text, Sequences, Sorting, Grouping, JsValues and CalendarDates are
  the JavaScript building blocks the components rely on:
  - regular-expression character tests, `toLowerCase`, `includes`, `startsWith` and `replace`;
  - `filter`, `slice`, `reduce` and `sort`;
  - a JavaScript object as a list of entries kept in key order, and the order in which
    `Object.entries` lists an object's keys (array indexes first, numerically);
  - `Date.setMonth` with its overflow into the next month.

Money and rates are exact `real`s. A text field parsed by `parseFloat`/`parseInt` is `Blank` or
`Entered(Some(x))`, or `Entered(None)` for NaN, because the validation's outcome depends on NaN. A
transaction date is an integer millisecond timestamp, and its day is that timestamp divided by
86 400 000.

## Model

| member | source | states |
|---|---|---|
| LoanCalculator.InstalmentEquation | src/pages/dashboard/Components/loanModal.tsx:261-262 | the reducing-balance instalment e satisfies e·((1+r)^n − 1) = p·r·(1+r)^n, and exceeds one month's interest p·r on a positive loan |
| LoanCalculator.RunningBalanceClosedForm | src/pages/dashboard/Components/loanModal.tsx:247-250 | after k subtractions of the monthly principal, the running balance is principal − k·step |
| LoanCalculator.EqualSplitLoop | src/pages/dashboard/Components/loanModal.tsx:245-258 | the fixed/flat loop (balance decremented, a row pushed per month) produces exactly the specification schedule EqualRows |
| LoanCalculator.ReducingLoop | src/pages/dashboard/Components/loanModal.tsx:264-278 | the reducing loop's accumulated total interest is AccruedInterest and its rows are ReducingRows |
| LoanCalculator.CalculateLoan | src/pages/dashboard/Components/loanModal.tsx:229-324 | `calculateLoan` on the three interest methods yields exactly the specification result Calculate |
| LoanCalculator.Max0 | src/pages/dashboard/Components/loanModal.tsx:256 | the `Math.max(0, balance)` clamp is non-negative, at least its argument, and the identity on non-negative values |
| LoanProperties.ScheduleShape | src/pages/dashboard/Components/loanModal.tsx:249-297 | for every method, the schedule has `months` rows numbered 1..months; each payment is principal plus interest; balances are ≥ 0, strictly decreasing, and 0 in the last month |
| LoanProperties.EqualScheduleFacts | src/pages/dashboard/Components/loanModal.tsx:240-258 | the fixed/flat schedule: rows numbered in order, payment = principal + interest, balances ≥ 0 and strictly falling, last balance 0 |
| LoanProperties.EqualScheduleSums | src/pages/dashboard/Components/loanModal.tsx:243-246 | the equal-split principal column sums to the loan, the interest column to the total interest, the payments to their sum |
| LoanProperties.EqualBalanceAt | src/pages/dashboard/Components/loanModal.tsx:250-256 | the clamped balance after month i+1 is exactly principal − (i+1)·principal/months (the clamp never bites) |
| LoanProperties.EqualBalancesFall | src/pages/dashboard/Components/loanModal.tsx:250-256 | a later month's clamped balance is strictly below an earlier one's |
| LoanProperties.EqualRowsAt | src/pages/dashboard/Components/loanModal.tsx:249-257 | row i of the equal split is (i+1, payment, monthly principal, monthly interest, clamped running balance) |
| LoanProperties.EqualRowsSums | src/pages/dashboard/Components/loanModal.tsx:251-257 | the three columns of k equal rows sum to k times the per-month amounts |
| LoanProperties.ReducingScheduleFacts | src/pages/dashboard/Components/loanModal.tsx:259-278 | with the instalment, reducing rows are numbered in order; payment = principal + interest; first interest = p·rate; each later interest = previous balance × rate; balances ≥ 0, strictly falling, last 0 |
| LoanProperties.ReducingScheduleSums | src/pages/dashboard/Components/loanModal.tsx:265-278 | with the instalment, the principal column sums to the loan and the interest column to the accrued total interest; n·instalment = loan + total interest |
| LoanProperties.ReducingSums | src/pages/dashboard/Components/loanModal.tsx:265-278 | for any instalment that clears the loan, the columns sum to loan, accrued interest and n·instalment, and n·instalment = loan + interest |
| LoanProperties.ReducingBalanceClosedForm | src/pages/dashboard/Components/loanModal.tsx:264-268 | after k months, balance·r = p·r·(1+r)^k − e·((1+r)^k − 1) |
| LoanProperties.ClosedFormNext | src/pages/dashboard/Components/loanModal.tsx:266-268 | one month of interest-then-repayment carries the closed form from month k−1 to month k |
| LoanProperties.InstalmentFacts | src/pages/dashboard/Components/loanModal.tsx:261-268 | the instalment exceeds the first month's interest and brings the balance to exactly 0 after n months |
| LoanProperties.ReducingBalanceFalls | src/pages/dashboard/Components/loanModal.tsx:266-268 | when the instalment exceeds the first interest, the balance never exceeds the loan and falls every month |
| LoanProperties.ReducingBalanceOrder | src/pages/dashboard/Components/loanModal.tsx:266-268 | under the same condition, a later balance is strictly below an earlier one |
| LoanProperties.ReducingRowsAt | src/pages/dashboard/Components/loanModal.tsx:266-277 | row i of the reducing schedule is (i+1, e, e − b·r, b·r, max(0, next balance)) with b the balance before the row |
| LoanProperties.ReducingRowFields | src/pages/dashboard/Components/loanModal.tsx:266-277 | each field of row i of the reducing schedule, one by one |
| LoanProperties.ReducingPrincipalPaid | src/pages/dashboard/Components/loanModal.tsx:267-268 | the principal column of k reducing rows sums to the loan minus the balance left after k months |
| LoanProperties.ReducingInterestPaid | src/pages/dashboard/Components/loanModal.tsx:266-269 | the interest column sums to the accrued `totalInterest` |
| LoanProperties.InterestOnPreviousBalance | src/pages/dashboard/Components/loanModal.tsx:266-276 | row i's interest is row i−1's stored balance times the monthly rate, whenever that balance was not clamped |
| LoanProperties.ReducingRowInterest | src/pages/dashboard/Components/loanModal.tsx:266-276 | on a schedule that clears the loan, each row's interest is the previous row's balance times the rate |
| LoanProperties.ReducingRowsFall | src/pages/dashboard/Components/loanModal.tsx:268-276 | on a schedule that clears the loan, the stored balances strictly fall |
| LoanProperties.ReducingRowsWellFormed | src/pages/dashboard/Components/loanModal.tsx:265-277 | on a schedule that clears the loan, rows are numbered in order, payment = principal + interest, balance ≥ 0 |
| LoanProperties.ReducingRowsInterest | src/pages/dashboard/Components/loanModal.tsx:266-276 | first interest = p·rate, then each interest = previous balance × rate |
| LoanProperties.ReducingRowsBalances | src/pages/dashboard/Components/loanModal.tsx:268-276 | the last stored balance is 0 and balances strictly fall |
| LoanProperties.FirstInterest | src/pages/dashboard/Components/loanModal.tsx:264-266 | the first month's interest is charged on the whole loan |
| LoanProperties.ReducingPayments | src/pages/dashboard/Components/loanModal.tsx:267-274 | every reducing row pays the instalment, split into principal plus interest |
| LoanProperties.PaidColumns | src/pages/dashboard/Components/loanModal.tsx:251-257 | when every row's payment is principal + interest, the payment column sums to the other two |
| LoanProperties.ReducingChargesOutstandingBalance | src/pages/dashboard/Components/loanModal.tsx:259-278 | the reducing method's schedule charges p·r/1200 in month 1 and previous balance × r/1200 in every later month |
| LoanProperties.ColumnsFor | src/pages/dashboard/Components/loanModal.tsx:240-298 | for every method, the schedule's columns sum to the loan, the total interest and months × monthly payment, and the rows agree |
| LoanProperties.PayableIsTermPayments | src/pages/dashboard/Components/loanModal.tsx:304-313 | with total repayment = principal + total interest and outstanding balance = −total repayment, as the result stores them, the amount payable is months × monthly payment and the outstanding balance is its negation |
| LoanProperties.ScheduleTotals | src/pages/dashboard/Components/loanModal.tsx:240-323 | in the stored result, the principal column sums to the loan, the interest column to `totalInterest`, the payments to `totalRepayment` |
| LoanProperties.PaymentsRepayLoan | src/pages/dashboard/Components/loanModal.tsx:240-297 | months × monthly payment = principal + total interest, for every method |
| LoanProperties.FixedInterestIgnoresTerm | src/pages/dashboard/Components/loanModal.tsx:240-305 | fixed total interest is principal·rate/100 whatever the term; its effective rate × months is 12 × rate |
| LoanProperties.FlatEffectiveRateIsRate | src/pages/dashboard/Components/loanModal.tsx:279-305 | flat total interest is principal·rate/100·months/12 and its effective rate equals the entered rate |
| LoanProperties.FlatIsFixedOverOneYear | src/pages/dashboard/Components/loanModal.tsx:240-298 | over 12 months the flat and fixed methods give the identical result |
| LoanProperties.MaturityIsTermAfterStart | src/pages/dashboard/Components/loanModal.tsx:301-302 | the maturity date is valid and at least `months` months after the start; exactly so with the same day when the start day is ≤ 28 |
| CalendarDates.AddMonths | src/pages/dashboard/Components/loanModal.tsx:301-302 | `setMonth(getMonth() + n)` keeps the day when the target month has it, else spills the surplus days into the following month; the result is a valid date |
| CalendarDates.EarlyDayPreserved | src/pages/dashboard/Components/loanModal.tsx:301-302 | days 1..28 are always kept, n months on |
| CalendarDates.TwelveMonthsFromMidJanuary | src/pages/dashboard/Components/loanModal.tsx:301-302 | 2025-01-15 + 12 months = 2026-01-15 |
| CalendarDates.EndOfJanuaryRollsIntoMarch | src/pages/dashboard/Components/loanModal.tsx:301-302 | 2025-01-31 + 1 month = 2025-03-03 |
| CalendarDates.LeapDayRollsOver | src/pages/dashboard/Components/loanModal.tsx:301-302 | 2024-02-29 + 12 months = 2025-03-01 |
| LoanForm.GateOpenIsValidInputs | src/pages/dashboard/Components/loanModal.tsx:172-186 | whenever the effect's gate opens, its inputs meet the calculator's precondition |
| LoanForm.LoanModal.Recalculate | src/pages/dashboard/Components/loanModal.tsx:172-186 | when the gate opens the stored result becomes the calculator's result; otherwise the previous result stays; the form is untouched |
| LoanForm.LoanModal.constructor | src/pages/dashboard/Components/loanModal.tsx:120-152 | the initial state: an individual loan using the fixed method, requested today, with no errors, no result and empty group-member inputs |
| LoanForm.CheckStep | src/pages/dashboard/Components/loanModal.tsx:402-429 | each check adds its message to the dictionary exactly when it fails |
| LoanForm.Check | src/pages/dashboard/Components/loanModal.tsx:402-429 | one `if (…) newErrors.key = message` step moves the dictionary from n checks made to n+1 |
| LoanForm.AllChecksMade | src/pages/dashboard/Components/loanModal.tsx:399-429 | after the eleven checks the dictionary holds one message for every failing check |
| LoanForm.CheckForm | src/pages/dashboard/Components/loanModal.tsx:399-429 | the checks, run in the source's order on a fresh dictionary, produce exactly the expected errors |
| LoanForm.LoanModal.ValidateForm | src/pages/dashboard/Components/loanModal.tsx:398-433 | the stored errors are the expected errors and the result is true iff the dictionary is empty |
| LoanForm.ValidIff | src/pages/dashboard/Components/loanModal.tsx:398-433 | the form is valid iff: an individual loan has a customer; a group loan has a name and ≥ 2 members; the category, purpose and guarantor fields are filled; the date is set; the amount is set and not ≤ 0; the rate is set and not < 0; the duration is set and not ≤ 0 |
| LoanForm.ZeroRatePassesValidationButNeverCalculates | src/pages/dashboard/Components/loanModal.tsx:420 | a 0% rate raises no rate error, yet the recompute gate (line 184) stays shut |
| LoanForm.UnparsableAmountPassesValidation | src/pages/dashboard/Components/loanModal.tsx:417 | an amount that parses to NaN raises no amount error, yet the recompute gate (line 184) stays shut |
| LoanForm.GateOpenPassesNumericChecks | src/pages/dashboard/Components/loanModal.tsx:417-426 | whenever the recompute gate (line 184) lets the calculator run, validation raises no amount, rate, duration or date error |
| LoanForm.FindCustomer | src/pages/dashboard/Components/loanModal.tsx:358 | `find` returns the first customer of the list with that id, and nothing iff no customer has it |
| LoanForm.LoanModal.AddGroupMember | src/pages/dashboard/Components/loanModal.tsx:349-385 | missing input sets the input error; an unknown customer changes nothing; a duplicate sets the duplicate error; otherwise exactly one member is appended, the inputs are cleared and the error is cleared; distinct ids stay distinct |
| LoanForm.AppendKeepsIdsDistinct | src/pages/dashboard/Components/loanModal.tsx:362-380 | appending a customer not yet present keeps the member ids distinct |
| LoanForm.LoanModal.RemoveMember | src/pages/dashboard/Components/loanModal.tsx:387-392 | only the member list changes, to the filtered list |
| LoanForm.RemoveGroupMemberContents | src/pages/dashboard/Components/loanModal.tsx:390 | removal keeps exactly the members with another id, each as many times as before, and leaves no member with that id |
| LoanForm.RemoveUndoesAppend | src/pages/dashboard/Components/loanModal.tsx:377-392 | removing the member just added gives back the previous list |
| LoanForm.TotalGroupShareIsSum | src/pages/dashboard/Components/loanModal.tsx:394-396 | the total share is the sum of the shares (0 for no members); one NaN share makes the whole total 0 |
| ProfitLoss.CalculatePLData | src/pages/dashboard/Components/plModal.tsx:10-35 | income = revenue + commission (0 when absent); profit = income − monthly expenses; margin·income = profit·100 when income > 0, else 0; the category dictionary is the grouped totals |
| ProfitLoss.ExpensesByCategory | src/pages/dashboard/Components/plModal.tsx:16-20 | the mutating `reduce` produces the specification dictionary Totals and the order in which it created the keys; the breakdown lists them by JsValues.PropertyOrder |
| ProfitLoss.CategoryOf | src/pages/dashboard/Components/plModal.tsx:17 | an expense without a category is filed under "Other"; otherwise under its own |
| ProfitLoss.CategorySums | src/pages/dashboard/Components/plModal.tsx:16-20 | the keys are exactly the categories used; each total is the sum of that category's amounts; the keys are distinct; the totals add up to the sum of all amounts |
| ProfitLoss.Margin | src/pages/dashboard/Components/plModal.tsx:24 | margin·income = profit·100 when income > 0, and exactly 0 otherwise |
| ProfitLoss.Div | src/pages/dashboard/Components/plModal.tsx:43 | JavaScript division: a finite quotient q with q·b = a unless b = 0, then +∞, −∞ or NaN by the sign of a |
| ProfitLoss.BreakdownSorted | src/pages/dashboard/Components/plModal.tsx:40-44 | the breakdown is a permutation of the entries `Object.entries` lists (one per dictionary key, in JsValues.PropertyOrder), sorted by amount, non-increasing |
| ProfitLoss.BreakdownEntries | src/pages/dashboard/Components/plModal.tsx:40-44 | each entry is a key of the dictionary with its amount and percentage amount/totalExpenses·100, and every key has an entry |
| ProfitLoss.BreakdownDistinct | src/pages/dashboard/Components/plModal.tsx:40-44 | no category appears twice in the breakdown |
| ProfitLoss.ExpenseCategoriesFacts | src/pages/dashboard/Components/plModal.tsx:16-44 | the breakdown has one entry per category used, with that category's total, and no category twice |
| ProfitLoss.PercentageOfTotal | src/pages/dashboard/Components/plModal.tsx:43 | with non-zero total expenses, the percentage is the finite amount/total·100 |
| ProfitLoss.MaxValue | src/pages/dashboard/Components/plModal.tsx:54 | the chart scale is ≥ every row's revenue and expenses and equals one of them |
| ProfitLoss.RatioVerdictIff | src/pages/dashboard/Components/plModal.tsx:331 | "Healthy ratio" iff expenses·100 < 70·income for positive income, > for negative income, or expenses < 0 for zero income (−∞ < 70) |
| StaffDetail.CustomersOf | src/pages/dashboard/Components/staffDetailModal.tsx:31-33 | exactly the customers registered by the selected staff member |
| StaffDetail.StaffTransactions | src/pages/dashboard/Components/staffDetailModal.tsx:34-36 | exactly the transactions recorded by the selected staff member |
| StaffDetail.FiltersKeepOrder | src/pages/dashboard/Components/staffDetailModal.tsx:31-36 | both filters distribute over concatenation, so they keep the list order |
| StaffDetail.SortedStaffTransactions | src/pages/dashboard/Components/staffDetailModal.tsx:39-40 | the sorted transactions are a permutation of the staff's transactions, newest first |
| StaffDetail.NewestAreNewest | src/pages/dashboard/Components/staffDetailModal.tsx:39-41 | min(5, n) entries, drawn from the staff's transactions, newest first, none of those left out newer than one kept |
| StaffDetail.Title | src/pages/dashboard/Components/staffDetailModal.tsx:47-67 | deposit → "Deposit collected from " + name or "Unknown"; withdrawal → "Withdrawal by " + same; commission → "New commission"; otherwise the type itself |
| StaffDetail.TitleNamesCustomer | src/pages/dashboard/Components/staffDetailModal.tsx:47-57 | a deposit or withdrawal title names the customer (or "Unknown") and is never the commission title |
| StaffDetail.RecentActivity | src/pages/dashboard/Components/staffDetailModal.tsx:39-70 | at most five activities, one per newest transaction with its id, title and type, dated by the transaction, newest first |
| StaffDetail.RecentActivityAsWritten | src/pages/dashboard/Components/staffDetailModal.tsx:45-70 | as written, every activity's `transaction_date` is empty |
| StaffDetail.AsWrittenActivityLosesDate | src/pages/dashboard/Components/staffDetailModal.tsx:45-70 | the as-written list is the intended list with every date dropped, and differs from it whenever the staff has a transaction |
| StaffDetail.CustomersByAccount | src/pages/dashboard/Components/staffDetailModal.tsx:329-331 | the customer tab is a permutation of the staff's customers, ascending by account number (the filtered list itself is unchanged) |
| StaffDetail.CountsAsDeposit | src/pages/dashboard/Components/staffDetailModal.tsx:435 | `&&` binds tighter than `\|\|`: an approved undeleted deposit counts for any recorder, and a completed transaction collected by the staff counts whatever its type or deletion, and a completed transaction counts only when the staff collected it |
| StaffDetail.CountsAsWithdrawal | src/pages/dashboard/Components/staffDetailModal.tsx:437 | only a transaction that is not a deposit counts as a withdrawal, and it does so iff it is an approved, undeleted withdrawal recorded by the staff member |
| StaffDetail.RecordTransaction | src/pages/dashboard/Components/staffDetailModal.tsx:430-439 | the `forEach` callback creates the day's entry on first use and raises one of its totals; the dictionary's keys stay its day list |
| StaffDetail.BuildReportsMap | src/pages/dashboard/Components/staffDetailModal.tsx:427-440 | the loop produces the specification dictionary DailyTotals and the order in which days were first met |
| StaffDetail.DailyTotalsAt | src/pages/dashboard/Components/staffDetailModal.tsx:427-440 | a day has an entry iff any transaction, of any staff member, falls on it; its totals are the sums of counted deposits and withdrawals that day |
| StaffDetail.QuietDayIsZero | src/pages/dashboard/Components/staffDetailModal.tsx:431-439 | a day with no counted transaction still has an entry, with both totals 0 |
| StaffDetail.ReportsListFacts | src/pages/dashboard/Components/staffDetailModal.tsx:443-451 | the reports list has one entry per day with a transaction, each with that day's totals and an index id, latest day first |
| DashboardLayout.FixedShape | src/layouts/DashboardLayout.tsx:44-65 | the first five entries are always Overview, Customers, Deposits, Withdrawals, Finance, and only Finance has children |
| DashboardLayout.OptionalShape | src/layouts/DashboardLayout.tsx:66-68 | Reports, Staffs and Loans appear in that order iff VIEW_BRIEFING, MANAGE_STAFF and LOAN_PRIVILEGES respectively |
| DashboardLayout.NavigationEnds | src/layouts/DashboardLayout.tsx:44-71 | the menu begins Overview, Customers, Deposits, Withdrawals, Finance and ends with Chat |
| DashboardLayout.NavigationOrdered | src/layouts/DashboardLayout.tsx:44-71 | the menu entries appear in their fixed rank order |
| DashboardLayout.NavigationChildren | src/layouts/DashboardLayout.tsx:49-65 | exactly the Finance entry has children, and those are the permission-dependent finance tabs |
| DashboardLayout.NavigationPermissions | src/layouts/DashboardLayout.tsx:66-68 | Reports, Staffs and Loans are in the menu iff their permission is set |
| DashboardLayout.ShortTabsInFullMenu | src/layouts/DashboardLayout.tsx:53-64 | the two restricted tabs are among the seven full tabs, and tab keys are distinct |
| DashboardLayout.ActiveBelow | src/layouts/DashboardLayout.tsx:216-220 | an active item other than the overview has an href that prefixes the path |
| DashboardLayout.AtMostOneActive | src/layouts/DashboardLayout.tsx:216-220 | no path makes two different menu pages active (`isActive`; the Finance entry's highlight is a separate prefix test) |
| DashboardLayout.FindByHref | src/layouts/DashboardLayout.tsx:78 | `find` returns the first entry whose href is the path, and nothing iff no entry has it |
| DashboardLayout.FindChild | src/layouts/DashboardLayout.tsx:86 | `find` returns the first child whose tab is the query's tab, and nothing iff no child has it |
| DashboardLayout.PageNameAsWritten | src/layouts/DashboardLayout.tsx:77-91 | the name of the entry whose href equals the path; when none matches, under the `/dashboard/expenses` prefix "Finance - <child>" for the first finance child whose tab is the `tab` query, else "Finance"; "Dashboard" outside that prefix |
| DashboardLayout.SubTabTitleUnreachable | src/layouts/DashboardLayout.tsx:78-87 | on the finance path every tab query gives "Finance": "Finance - Revenue" is never produced |
| DashboardLayout.PageName | src/layouts/DashboardLayout.tsx:77-91 | on the finance path with a matching tab, "Finance - " + the tab's name; otherwise as written |
| DashboardLayout.SubTabTitles | src/layouts/DashboardLayout.tsx:84-87 | every sub-tab link the sidebar renders gets the title "Finance - " + its name |
| DashboardLayout.Toggled | src/layouts/DashboardLayout.tsx:94-107 | at width ≥ 1024 `collapsed` flips and `open` becomes true if it was collapsed; below, `open` flips and `collapsed` stays |
| DashboardLayout.Resized | src/layouts/DashboardLayout.tsx:117-123 | resizing to ≥ 1024 forces `open`; below forces `collapsed` off |
| DashboardLayout.ClickedOutside | src/layouts/DashboardLayout.tsx:125-133 | the sidebar stays open iff it was open and the click was on desktop, inside the sidebar, or on the toggle button |
| DashboardLayout.PathEntered | src/layouts/DashboardLayout.tsx:38-42 | a path under /dashboard/expenses opens the finance group; any other path changes nothing |
| DashboardLayout.ToggleTwice | src/layouts/DashboardLayout.tsx:94-107 | toggling twice restores the state, except that it opens a closed sidebar on desktop |
| DashboardLayout.ResizeSettles | src/layouts/DashboardLayout.tsx:108-123 | resizing and the (unused) mobile toggle are idempotent; the mobile toggle always leaves the sidebar open and expanded |
| DashboardLayout.PathNeverFoldsFinance | src/layouts/DashboardLayout.tsx:38-42 | the effect never closes an open finance group |
| DashboardLayout.Sidebar.constructor | src/layouts/DashboardLayout.tsx:29-31 | the sidebar starts open, expanded, finance folded |
| DashboardLayout.Sidebar.ToggleSidebar | src/layouts/DashboardLayout.tsx:94-107 | the new state is Toggled of the old |
| DashboardLayout.Sidebar.ToggleMobileSidebar | src/layouts/DashboardLayout.tsx:108-111 | the sidebar ends open and not collapsed; `toggleMobileSidebar` is an unused handler (no element calls it), so this transition is not reachable from the rendered layout |
| DashboardLayout.Sidebar.Resize | src/layouts/DashboardLayout.tsx:117-123 | the new state is Resized of the old |
| DashboardLayout.Sidebar.ClickOutside | src/layouts/DashboardLayout.tsx:125-133 | the new state is ClickedOutside of the old |
| DashboardLayout.Sidebar.EnterPath | src/layouts/DashboardLayout.tsx:38-42 | the new state is PathEntered of the old |
| DashboardLayout.Sidebar.ToggleFinance | src/layouts/DashboardLayout.tsx:228 | only `openFinance` flips |
| DashboardLayout.Sidebar.ClickBackdrop | src/layouts/DashboardLayout.tsx:147-150 | the backdrop click closes the sidebar and changes nothing else; the logo link, close button, navigation links and bell (lines 165, 179, 293, 315, 337, 442) take the same step |
| AllStaffTab.StrengthMessage | src/pages/dashboard/Components/allStaffTab.tsx:47-61 | the message of the first failing check (length, upper, lower, digit), or "" when all pass |
| AllStaffTab.StrengthMessageAgreesWithFlags | src/pages/dashboard/Components/allStaffTab.tsx:47-61 | the message is "" iff all four flags of the security page's validator hold |
| AllStaffTab.ResetFormError | src/pages/dashboard/Components/allStaffTab.tsx:68-79 | a mismatch is reported before strength; "" iff the two match and the password is valid |
| AllStaffTab.ResetPasswordDialog.constructor | src/pages/dashboard/Components/allStaffTab.tsx:18-24 | the dialog starts closed, with empty fields and no error |
| AllStaffTab.ResetPasswordDialog.OpenFor | src/pages/dashboard/Components/allStaffTab.tsx:34-44 | the click selects the staff member, empties both fields and the error, hides both passwords and opens the modal |
| AllStaffTab.ResetPasswordDialog.BeginSubmit | src/pages/dashboard/Components/allStaffTab.tsx:64-85 | the reset call is made iff the form has no error; the error shown is the form's error; submitting starts only with the call |
| AllStaffTab.ResetPasswordDialog.FinishSubmit | src/pages/dashboard/Components/allStaffTab.tsx:85-97 | a true status closes the modal, clears the selection and both fields; a false status changes none of them; a thrown error shows its message or the fallback |
| AllStaffTab.FilteredStaff | src/pages/dashboard/Components/allStaffTab.tsx:27-31 | keeps exactly the staff whose lower-cased name, email or role contains the lower-cased term (absent fields never match) |
| AllStaffTab.FilteredStaffKeepsOrder | src/pages/dashboard/Components/allStaffTab.tsx:27-31 | the filter keeps order and ignores the search term's case |
| AllStaffTab.EmptySearch | src/pages/dashboard/Components/allStaffTab.tsx:27-31 | the empty term keeps exactly the staff with at least one of name, email, role present |
| AllStaffTab.RoleBadgeColor | src/pages/dashboard/Components/allStaffTab.tsx:101-110 | the four known roles map to their colours regardless of case; any other or missing role maps to grey |
| AllStaffTab.RoleBadgeColorIgnoresCase | src/pages/dashboard/Components/allStaffTab.tsx:109 | roles equal up to case get the same colour |
| SecurityTab.ValidatePassword | src/pages/dashboard/Security.tsx:55-63 | the four flags: length ≥ 8, some A–Z, some a–z, some 0–9 |
| SecurityTab.IsPasswordValid | src/pages/dashboard/Security.tsx:65-66 | valid iff all four flags hold |
| SecurityTab.PasswordFormError | src/pages/dashboard/Security.tsx:75-84 | a mismatch is reported before weakness; "" iff the two match and the password is valid |
| SecurityTab.MergeProfile | src/pages/dashboard/Security.tsx:135-138 | `{...user, ...profileForm}`: the four profile keys take the form's values, every other stored key is unchanged |
| SecurityTab.SecuritySettings.constructor | src/pages/dashboard/Security.tsx:7-52 | the page starts with empty password fields and no messages, and shows the stored user |
| SecurityTab.SecuritySettings.SubmitDisabled | src/pages/dashboard/Security.tsx:345 | the button is enabled iff nothing is in flight and the new password is valid |
| SecurityTab.SecuritySettings.BeginPasswordSubmit | src/pages/dashboard/Security.tsx:69-86 | both messages are cleared, then the form's error is shown; `changePassword` is called iff there is none |
| SecurityTab.SecuritySettings.FinishPasswordSubmit | src/pages/dashboard/Security.tsx:89-107 | success shows the success message and empties all three fields; a false status shows "Failed to change password"; a thrown error shows its message or the fallback |
| SecurityTab.SecuritySettings.BeginProfileSubmit | src/pages/dashboard/Security.tsx:111-115 | both messages are cleared and submitting starts |
| SecurityTab.SecuritySettings.FinishProfileSubmit | src/pages/dashboard/Security.tsx:117-149 | on success the stored user becomes the merge and is shown; a refusal shows the server's message or "Failed to update profile"; a failure shows its message or the fallback |
| ForcePasswordChange.ValidatePassword | src/pages/dashboard/forcePasswordChange.tsx:26-35 | the five flags, the fifth being some character of `!@#$%^&*(),.?":{}\|<>` |
| ForcePasswordChange.StricterThanSecurityPage | src/pages/dashboard/forcePasswordChange.tsx:37-38 | valid iff valid for the security page and it has a special character; so every password valid here is valid there, and "Password1" shows the converse fails |
| ForcePasswordChange.SubmitError | src/pages/dashboard/forcePasswordChange.tsx:46-61 | mismatch, then weakness, then same-as-current: the first failure's message; "" iff none fails |
| ForcePasswordChange.PasswordChanged | src/pages/dashboard/forcePasswordChange.tsx:75-77 | the stored user's `change_password_after_signin` becomes false and every other field is unchanged |
| ForcePasswordChange.ForcedChangeForm.constructor | src/pages/dashboard/forcePasswordChange.tsx:8-23 | the form starts empty, with no error, holding the current password passed in |
| ForcePasswordChange.ForcedChangeForm.SubmitDisabled | src/pages/dashboard/forcePasswordChange.tsx:287 | enabled iff not submitting, the passwords match and the password is valid; an enabled submit can still fail only as same-as-current |
| ForcePasswordChange.ForcedChangeForm.BeginSubmit | src/pages/dashboard/forcePasswordChange.tsx:41-63 | the error shown is SubmitError; `forceResetPassword` is called iff it is "" |
| ForcePasswordChange.ForcedChangeForm.FinishSubmit | src/pages/dashboard/forcePasswordChange.tsx:68-84 | success clears the stored flag; a false status sets the error and leaves the stored user untouched; a thrown error shows its message or the fallback |
| OtherStaffTab.ApplyEdit | src/pages/dashboard/Components/otherStaffTab.tsx:86 | `{...staff, ...editForm}`: the edited fields take the form's values; id and permissions are kept |
| OtherStaffTab.UpdateById | src/pages/dashboard/Components/otherStaffTab.tsx:85-87 | same length; entries with another id unchanged; entries with the id carry the form's fields |
| OtherStaffTab.UnchangedFormIsNoEdit | src/pages/dashboard/Components/otherStaffTab.tsx:85-87 | submitting the form as `handleEditClick` filled it leaves the list unchanged |
| OtherStaffTab.SetPermissionsById | src/pages/dashboard/Components/otherStaffTab.tsx:119-125 | only the `permissions` of the entries with the id change |
| OtherStaffTab.DeleteById | src/pages/dashboard/Components/otherStaffTab.tsx:151 | keeps exactly the entries with another id |
| OtherStaffTab.DeleteByIdKeepsOrder | src/pages/dashboard/Components/otherStaffTab.tsx:151 | deletion distributes over concatenation, so the rest keep their order |
| OtherStaffTab.DeleteAbsentId | src/pages/dashboard/Components/otherStaffTab.tsx:151 | deleting an id nobody has changes nothing |
| OtherStaffTab.PermissionBadges | src/pages/dashboard/Components/otherStaffTab.tsx:229-234 | at most one badge per entry, none containing '_' |
| OtherStaffTab.PermissionBadgesAreGranted | src/pages/dashboard/Components/otherStaffTab.tsx:229-234 | the badges are exactly the keys whose value is `true`, with '_' replaced by spaces |
| OtherStaffTab.PermissionBadgesKeepOrder | src/pages/dashboard/Components/otherStaffTab.tsx:229-234 | badges keep entry order |
| OtherStaffTab.ToggleSetsOnlyThatBox | src/pages/dashboard/Components/otherStaffTab.tsx:482-487 | the toggled box reads as checked/unchecked and every other box reads as before |
| OtherStaffTab.OtherStaffPanel.constructor | src/pages/dashboard/Components/otherStaffTab.tsx:6-36 | the panel starts with no selection, the blank edit form and the default permission set, all modals closed |
| OtherStaffTab.OtherStaffPanel.EditClick | src/pages/dashboard/Components/otherStaffTab.tsx:39-50 | selects the staff member, copies its six fields into the edit form and opens the edit modal |
| OtherStaffTab.OtherStaffPanel.PermissionsClick | src/pages/dashboard/Components/otherStaffTab.tsx:53-57 | selects the staff member, loads its permissions and opens the permissions modal |
| OtherStaffTab.OtherStaffPanel.DeleteClick | src/pages/dashboard/Components/otherStaffTab.tsx:60-63 | selects the staff member and opens the delete modal |
| OtherStaffTab.OtherStaffPanel.ToggleCheckbox | src/pages/dashboard/Components/otherStaffTab.tsx:483-487 | only that key of the permission form changes, to the new value |
| StaffPage.MobileBankers | src/pages/dashboard/Staff.tsx:52 | exactly the staff whose role is mobile_banker, teller or accountant |
| StaffPage.OtherStaff | src/pages/dashboard/Staff.tsx:53 | exactly the staff whose role is not mobile_banker (the same filter as the other-staff tab, src/pages/dashboard/Components/otherStaffTab.tsx:13) |
| StaffPage.RoleListsKeepOrder | src/pages/dashboard/Staff.tsx:52-53 | both filters keep order |
| StaffPage.RoleListsOverlap | src/pages/dashboard/Staff.tsx:52-53 | tellers and accountants are in both lists, mobile bankers only in the first, and everyone is in at least one |
| StaffPage.SelectedId | src/pages/dashboard/Staff.tsx:42 | `selectedStaff?.id`: the selected member's id, or absent (`undefined`) when nobody is selected |
| StaffPage.StaffTransactions | src/pages/dashboard/Staff.tsx:41-43 | exactly the transactions whose recorded staff id is `selectedStaff?.id` |
| StaffPage.StaffTransactionsOfSelection | src/pages/dashboard/Staff.tsx:41-43 | with a member selected, exactly that member's transactions; with nobody selected, exactly the transactions no staff member recorded |
| StaffPage.StaffTransactionsKeepOrder | src/pages/dashboard/Staff.tsx:41-43 | the filter keeps the order of the transaction list |
| StaffContext.Normalise | src/contexts/dashboard/Staff.tsx:83-99 | id, phone, email and role are copied; name is kept when non-empty, else full_name; each count is the numeric value or 0; a non-empty lastActivity is kept, else none; a non-empty status is kept, else "active"; present permissions and accounts are kept, else empty |
| StaffContext.NormaliseAll | src/contexts/dashboard/Staff.tsx:83 | one normalised record per fetched record, same length and order |
| StaffContext.StaffList | src/contexts/dashboard/Staff.tsx:83-99 | the staff list holds, in fetch order, the staff part of each record's normalisation |
| StaffContext.NormaliseIsStable | src/contexts/dashboard/Staff.tsx:83-99 | normalising an already-normalised record again (its name fed back as `name`, `full_name` absent, counts as numbers) changes nothing, provided its name is not the empty string |
| StaffContext.OrElse | src/contexts/dashboard/Staff.tsx:85 | `x \|\| fallback` on strings: x when present and non-empty, else the fallback |
| StaffContext.CountOf | src/contexts/dashboard/Staff.tsx:92-94 | `Number(x) \|\| 0`: the numeric value, or 0 when missing or not a number |
| JsValues.AssignLookup | src/pages/dashboard/Components/otherStaffTab.tsx:484-487 | `{...obj, [key]: v}` reads v at key and the old value at every other key |
| JsValues.AssignKeys | src/pages/dashboard/Components/otherStaffTab.tsx:484-487 | the spread adds the key to the key set and keeps the keys unique |
| JsValues.PropertyOrderFacts | src/pages/dashboard/Components/plModal.tsx:40 | `Object.entries` lists each created key as often as created: first the array-index keys in ascending numeric order, then the other keys in creation order; keys created once are listed once |
| JsValues.PropertyOrderMembers | src/pages/dashboard/Components/plModal.tsx:40 | the listing has the same length and the same keys as the creation order |
| JsValues.PropertyOrderExample | src/pages/dashboard/Components/plModal.tsx:40 | categories created as Rent, 2024, 07, 5 are listed as 5, 2024, Rent, 07 |
| Text.Lower | src/pages/dashboard/Components/allStaffTab.tsx:28-30 | `toLowerCase` (ASCII): same length, letter by letter, no upper-case letter left |
| Text.LowerIdempotent | src/pages/dashboard/Components/allStaffTab.tsx:28-30 | lower-casing twice is lower-casing once |
| Text.UnderscoresToSpaces | src/pages/dashboard/Components/otherStaffTab.tsx:233 | `replace(/_/g, ' ')`: same length, each '_' replaced by a space, others kept |
| Text.AnyInRange | src/pages/dashboard/Security.tsx:58-60 | `/[lo-hi]/.test(s)` iff some character lies in the range |
| Text.AnyOf | src/pages/dashboard/forcePasswordChange.tsx:32 | a character-class test iff some character is in the class |
| Text.StrLeTotal | src/pages/dashboard/Components/staffDetailModal.tsx:331 | the account-number comparison is total |
| Text.StrLeTransitive | src/pages/dashboard/Components/staffDetailModal.tsx:331 | the account-number comparison is transitive |
| Sorting.SortSorted | src/pages/dashboard/Components/plModal.tsx:44 | `sort` with a total-preorder comparator yields a sorted permutation |
| Grouping.TotalsAreGroupSums | src/pages/dashboard/Components/plModal.tsx:16-20 | a grouping `reduce` yields one key per group, each holding the sum of that group's values |
| Grouping.TotalsAddUp | src/pages/dashboard/Components/plModal.tsx:16-20 | the group totals, summed over the keys, give the sum of all values |

## Left out

- Floating point. Amounts and rates are exact reals. IEEE rounding, `toFixed(2)`, `toLocaleString`
  and `Intl.NumberFormat` are not modelled, and neither are the text fields `calculateLoan` writes
  back into the form (loanModal.tsx:307-314).
- NaN is modelled only where control flow depends on it: parsed form fields, a NaN group share,
  and `Number(x) || 0`. Every amount in an expense or a transaction is a number.
- Dates are abstracted.
  - A transaction's day is its timestamp divided by one day in UTC; `toDateString`'s local time zone
    is not modelled.
  - A report's `generatedDate` is that day.
  - The request date is a year/month/day triple, and "today" is a parameter.
  - Locale date formatting and the activity subtitles (`toLocaleDateString`) are left out.
- `localeCompare` is modelled as code-unit order on the account numbers. `toLowerCase` covers ASCII
  letters only.
- `roleColors[role]` looks up an object literal. A role such as "constructor" would find an
  inherited property; that is not modelled.
- ProfitLoss.ExpensesByCategory sums numbers for every category name. In the source the dictionary
  is a plain `{}` (plModal.tsx:16-20), so a category naming an inherited property differs:
  "constructor" or "toString" reads the inherited function and stores a concatenated string, and
  "__proto__" drops the key. Inherited properties are not modelled.
- An `Option` field that is `None` stands for a field the record leaves out (`undefined`). A JSON
  `null` is not modelled. For example, a `recorded_staff_id` of `null` fails `null === undefined`, so
  with nobody selected StaffPage.StaffTransactions would not keep that transaction.
- React scheduling: each handler or effect is one atomic step. Reading state as it was at render
  time is not modelled.
- I/O is left out: `fetch`, `localStorage`, `setTimeout`, `alert`, `toast`, `navigate` and
  `console`. A service call's result is a parameter of the Finish step, and the stored user is an
  in-memory map.
- The other-staff submit handlers call `setOtherStaff`, which the component never declares. Only the
  list transformations those handlers express are modelled: UpdateById, SetPermissionsById and
  DeleteById.
- The Security page's mount effect, which reads `localStorage` into the profile form, is reduced to
  the constructor's parameters. The `activeSection` toggle and the show/hide password flags are
  left out.
- The disbursed-amount effect, `handleInputChange`, `resetForm` and `handleSubmit` of the loan
  modal are left out. They copy fields and call the parent; no rule is stated about them.
- StaffContext.Normalise: `department` is left absent, as the source's mapper never sets it.
  `created_at`, `performance` and `company_id` are passed through unexamined and are not part of
  the model's record.
- LoanCalculator.Calculate keeps `outstandingBalance` in the result record. The source stores it only
  in the form fields (loanModal.tsx:313), as the text of −total repayment.
- LoanCalculator.EqualSplitLoop and LoanCalculator.ReducingLoop require `months > 0`. Their only
  caller, the recompute gate, guarantees it. On zero months the source's loops would produce an
  empty schedule and divide by zero.
- ProfitLoss.MaxValue takes the trend rows as input; the hard-coded mock months are left out.
- Sorting is modelled on `seq` as a stable insertion sort. The in-place `Array.prototype.sort` on the
  reports array and on `staffTransactions` is not modelled. The `recentActivity` sort reorders the
  fresh array `filter` returned (staffDetailModal.tsx:34-40), which the transactions tab then shows
  newest first; the model keeps the filtered list and its sorted copy as two values.
- src/contexts/dashboard/Settings.tsx and src/layouts/PublicLayout.tsx are not part of this model.

## Findings

| source | as written | input that shows it | evidently intended | confidence | as-written member | corrected member |
|---|---|---|---|---|---|---|
| src/layouts/DashboardLayout.tsx:78-87 | the exact-href lookup runs first, and the Finance entry's href equals the pathname of every sub-tab link (`/dashboard/expenses?tab=…`), so it returns "Finance" | path "/dashboard/expenses" with query tab=revenue gives "Finance" | "Finance - Revenue" for a matching tab | high; not executed | DashboardLayout.SubTabTitleUnreachable (about DashboardLayout.PageNameAsWritten) | DashboardLayout.PageName, proved by DashboardLayout.SubTabTitles |
| src/pages/dashboard/Components/staffDetailModal.tsx:45-70 | `transaction_date = transaction_date` assigns the empty local to itself, so every activity's date is '' | any staff member with one transaction | the transaction's own date | high; not executed | StaffDetail.RecentActivityAsWritten, shown by StaffDetail.AsWrittenActivityLosesDate | StaffDetail.RecentActivity |
