# Mess manager: the page logic, modelled and proved in Dafny

The mess manager is a React front end over a hosted database. A mess is a shared kitchen, and the app tracks its menu, inventory, expenses, member payments and budgets. Almost all of it is network calls and markup. This project models the rules inside the pages, with the rows the queries return given as sequences:

- **Inventory page.** The stock filter, the low-stock and out-of-stock alert lists and cards, the card tones, and the add/edit dialog.
- **Budget tracker.** Spending per category, the status thresholds, the totals, and the "Add Budget" action. The tracker is a class whose methods update its state.
- **Reports page.** The totals, the low-stock count, the category and month dictionaries, the last six months, the monthly average, and the CSV export text.
- **Finances page.** The totals, the balance and its sign, the "this month" figures, the join of rows to profiles, the payment-method labels, and the two submit handlers.
- **Member dashboard.** The cost summary (an even share, rounding, and the due date on the last day of the month), the category colours, and the weekly menu sorted by day.
- **Menu page.** The seven day columns, the day and category selects, and the add/edit dialog.
- **Notification bell.** A class holding the notification list and an unread counter. Add, mark-one and mark-all update it.
- **Sidebar.** The role-based menu, the highlighted entry, and whether the group is open.

Shared pieces live in their own modules:

- `Common`: `Option`, `Result`, `'' ↔ null`, and `Math.round`.
- `Text`: split, join, case mapping, and decimal numbers.
- `Rows`: the table rows, and the submit shape every dialog shares.
- `Aggregate`: sums, filters, `find`, the `reduce`-into-a-dictionary pattern, and `slice(-n)`.
- `Week`: the grouping of menu items by weekday.

A JavaScript object used as a dictionary becomes a sequence of key/amount buckets with distinct keys, in insertion order. The loops that fill a dictionary in place are methods proved equal to the functions they implement: `Aggregate.GroupSumsLoop` and `Week.GroupByDay`. Money and stock are `real`, and dates are (year, month, day) triples.

## Model

| member | source | states |
|---|---|---|
| Common.NullIfEmpty | src/pages/FinancialManagement.tsx:172 | an empty string is stored as null and any other string unchanged; reading it back with an empty default gives the string again |
| Common.Round | src/pages/MemberDashboard.tsx:140-145 | `Math.round` gives the integer within half a unit (ties upward) |
| Aggregate.Filter | src/pages/InventoryManagement.tsx:194-199 | a filter never grows the list |
| Aggregate.FilterCount | src/pages/InventoryManagement.tsx:194-199 | a filter keeps every occurrence of each passing element and drops every failing one |
| Aggregate.FilterMembership | src/pages/InventoryManagement.tsx:194-199 | an element is kept iff it occurs and passes |
| Aggregate.FilterIsSubsequence | src/pages/InventoryManagement.tsx:194-199 | a filter result is an order-preserving subsequence of its input |
| Aggregate.FilterAll | src/pages/InventoryManagement.tsx:198 | when every element passes, the filter returns the list itself |
| Aggregate.FilteredSumBounded | src/pages/FinancialManagement.tsx:301-307 | with non-negative amounts, a filtered sum is at most the full sum |
| Aggregate.FilterAgree | src/pages/FinancialManagement.tsx:301-307 | two predicates that agree on every row filter alike |
| Aggregate.Find | src/pages/FinancialManagement.tsx:125 | `find` is empty iff no row passes; otherwise it is a passing row |
| Aggregate.Keys | src/pages/Reports.tsx:91-94 | `Object.entries` lists one key per bucket, in bucket order |
| Aggregate.AccumulateSpec | src/pages/Reports.tsx:87 | one step of the reduce keeps keys distinct, appends a new key last, adds `a` to that key only, and adds `a` to the total |
| Aggregate.GroupSumsDistinctKeys | src/pages/Reports.tsx:85-89 | when no two rows share a key the reduce makes one bucket per row, in row order |
| Aggregate.LookupMissing | src/components/BudgetTracker.tsx:87 | a key the dictionary lacks reads as 0 |
| Aggregate.GroupSumsKeys | src/pages/Reports.tsx:85-89 | the grouped dictionary has distinct keys, exactly the keys of the rows |
| Aggregate.GroupSumsLookup | src/pages/Reports.tsx:85-89 | each key holds the sum of the rows with that key; an absent key reads 0 |
| Aggregate.GroupSumsTotal | src/components/BudgetTracker.tsx:79-103 | the buckets together hold the sum of all amounts |
| Aggregate.GroupSumsCount | src/pages/Reports.tsx:85-94 | there are exactly as many buckets as distinct keys |
| Aggregate.FirstIndex | src/pages/Reports.tsx:97-104 | the first position of a key, or the length when the key is absent |
| Aggregate.GroupSumsOrder | src/pages/Reports.tsx:97-109 | buckets come in the order their keys first occur |
| Aggregate.GroupSumsLoop | src/pages/Reports.tsx:85-89 | the in-place reduce loop computes the grouped dictionary |
| Aggregate.TakeLast | src/pages/Reports.tsx:106-109 | `slice(-n)` is a suffix of length min(n, length), and the whole list for n = 0 as `slice(-0)` is |
| Rows.CategoryKey | src/components/BudgetTracker.tsx:80 | an expense's bucket is never empty; it is its category when that is set, and `'other'` otherwise |
| Rows.Submit | src/pages/InventoryManagement.tsx:91-125 | without a mess the submit fails with "No mess found"; otherwise it updates the edited row or inserts into the user's mess, with the payload unchanged |
| Inventory.FilteredItems | src/pages/InventoryManagement.tsx:194-199 | `'all'` keeps everything in order; `'low-stock'` keeps exactly stock ≤ minimum; `'out-of-stock'` exactly stock = 0; any other value exactly that category; always an order-preserving subsequence |
| Inventory.AlertListsDisjoint | src/pages/InventoryManagement.tsx:201-202 | no item is on both alert lists |
| Inventory.AlertListsCoverLowStock | src/pages/InventoryManagement.tsx:195-202 | with non-negative stock the two alert lists together are exactly the low-stock filter |
| Inventory.NegativeStockEscapesAlerts | src/pages/InventoryManagement.tsx:201-202 | an item with negative stock passes the low-stock filter but is on neither alert list |
| Inventory.ToneAgreesWithAlerts | src/pages/InventoryManagement.tsx:427-460 | a card is destructive iff the item is out of stock, a warning iff it is on the low-stock list, and plain iff it is not low |
| Inventory.AlertCardOf | src/pages/InventoryManagement.tsx:357-397 | no card for an empty list; otherwise the count, the first min(3, n) items, and "+(n−3) more" exactly when n > 3 |
| Inventory.EditRoundTrip | src/pages/InventoryManagement.tsx:96-192 | editing then saving writes back every column; a null supplier stays null and only `''` becomes null |
| Inventory.SubmitItem | src/pages/InventoryManagement.tsx:84-146 | no mess → "No mess found" and the dialog kept; otherwise an update of the edited item's id or an insert into the user's mess with the payload, and the dialog reset to the blank form |
| Budget.StatusOf | src/components/BudgetTracker.tsx:89-91 | exceeded iff > 100, warning iff in (80, 100], safe iff ≤ 80 |
| Budget.StatusMonotone | src/components/BudgetTracker.tsx:89-91 | a higher percentage never gives a milder status |
| Budget.StatusBoundaries | src/components/BudgetTracker.tsx:89-91 | exactly 80 is safe and exactly 100 is a warning |
| Budget.RowFor | src/components/BudgetTracker.tsx:86-99 | a card keeps its plan's category and budget; spent is that category's sum or 0; percentage × budget = spent × 100; the status follows the percentage |
| Budget.BudgetRows | src/components/BudgetTracker.tsx:71-99 | one card per planned category, in plan order |
| Budget.RowSpentIsCategorySum | src/components/BudgetTracker.tsx:79-88 | a card's spent is the sum of the expenses counted under its category |
| Budget.TotalSpentIsSumOfExpenses | src/components/BudgetTracker.tsx:103 | the total spent is the sum of all expenses |
| Budget.UnplannedSpendingCounts | src/components/BudgetTracker.tsx:102-103 | a "cleaning" expense is in the total spent although no card shows it |
| Budget.TotalPercentage | src/components/BudgetTracker.tsx:141 | 0 when the total budget is not positive; otherwise percentage × budget = spent × 100 |
| Budget.PlanCategoriesDistinct | src/components/BudgetTracker.tsx:71-76 | the planned cards differ in category, ignoring case |
| Budget.SumOfPlan | src/components/BudgetTracker.tsx:71-102 | the plan's budgets add up to 25000 |
| Budget.SumOfRowBudgets | src/components/BudgetTracker.tsx:102 | the cards' budgets add up to 25000 |
| Budget.AppendCard | src/components/BudgetTracker.tsx:119-134 | appending a card whose category is new (ignoring case) keeps categories distinct and adds its budget to the sum |
| Budget.BudgetTracker.constructor | src/components/BudgetTracker.tsx:33-39 | the tracker starts with no cards, zero totals, and an empty closed form |
| Budget.BudgetTracker.Load | src/components/BudgetTracker.tsx:47-103 | without a mess nothing changes; otherwise the cards come from the plan and spending, the total budget is 25000, and the total spent is the sum of the expenses |
| Budget.BudgetTracker.AddBudget | src/components/BudgetTracker.tsx:113-139 | a missing field or a case-insensitive duplicate leaves the state unchanged; otherwise one safe card with 0 spent is appended, the total budget grows by the amount, the form resets, and the invariant is kept |
| Reports.LowStockCount | src/pages/Reports.tsx:82 | the count is the number of items the low-stock filter keeps |
| Reports.BuildReport | src/pages/Reports.tsx:38-118 | without a mess, no report; otherwise the total, member count, low-stock count, category dictionary and last six months |
| Reports.ByCategorySpec | src/pages/Reports.tsx:85-94 | one entry per distinct category key, never empty, and the amounts add up to the total |
| Reports.ByMonthTotal | src/pages/Reports.tsx:97-104 | the month buckets add up to the total |
| Reports.MonthlyLength | src/pages/Reports.tsx:106-109 | the chart has min(6, distinct months) bars |
| Reports.MonthlyOrder | src/pages/Reports.tsx:97-109 | the bars are in first-seen order |
| Reports.MonthsNotChronological | src/pages/Reports.tsx:97-109 | a May expense listed before a January one puts May's bar first |
| Reports.AverageOver | src/pages/Reports.tsx:212 | the divisor is max(n, 1), so there is no division by zero |
| Reports.AverageWithinMonths | src/pages/Reports.tsx:212 | the corrected average lies between the smallest and the largest shown month |
| Reports.AveragesAgreeOnShortHistory | src/pages/Reports.tsx:212 | with at most six months, the average as written equals the corrected one |
| Reports.AvgMonthlyOverstates | src/pages/Reports.tsx:212 | for seven expenses of 100 in seven different months, any report with BuildReport's total and shown months gives 117 as written and 100 when corrected |
| Reports.CsvRows | src/pages/Reports.tsx:130-133 | a header row followed by one `[category, amount]` row per entry, in order |
| Reports.CsvLines | src/pages/Reports.tsx:135 | each row is joined with commas |
| Reports.CsvContentLines | src/pages/Reports.tsx:130-135 | splitting the CSV on newlines gives the header and then one `category,amount` line per entry: 1 + n lines |
| Reports.CsvLineFields | src/pages/Reports.tsx:135 | a line splits back into its two fields when neither holds a comma |
| Finance.Balance | src/pages/FinancialManagement.tsx:297-299 | balance + total expenses = total payments |
| Finance.BalanceStep | src/pages/FinancialManagement.tsx:297-299 | a new payment raises the balance by its amount; a new expense lowers it by its amount |
| Finance.BalanceCardOf | src/pages/FinancialManagement.tsx:334-338 | Surplus iff the balance is ≥ 0; the shown magnitude is non-negative and, signed, is the balance |
| Finance.CurrentMonthBounded | src/pages/FinancialManagement.tsx:301-307 | with non-negative amounts, each "this month" figure is at most its overall total |
| Finance.CurrentMonthIgnoresYear | src/pages/FinancialManagement.tsx:301-307 | an expense from May of last year counts in this May's figure as written, and does not once corrected |
| Finance.CurrentMonthIsMonthBucket | src/pages/FinancialManagement.tsx:301-303 | the corrected figure is the (year, month) bucket of the grouped expenses |
| Finance.CurrentMonthAgreesWithinYear | src/pages/FinancialManagement.tsx:301-307 | when every row is from this year, the figures as written equal the corrected ones |
| Finance.JoinExpenses | src/pages/FinancialManagement.tsx:123-126 | the join keeps every expense, in order |
| Finance.JoinPayments | src/pages/FinancialManagement.tsx:128-131 | the join keeps every payment, in order |
| Finance.JoinExpensesMatches | src/pages/FinancialManagement.tsx:125 | each expense gets the first profile whose user id is its `added_by`, or none |
| Finance.JoinPaymentsMatches | src/pages/FinancialManagement.tsx:130 | each payment gets the first profile whose id is its member id, or none |
| Finance.PayerName | src/pages/FinancialManagement.tsx:658 | "Unknown Member" iff no profile or no full name; otherwise the full name |
| Finance.MethodLabel | src/pages/FinancialManagement.tsx:600-660 | same length; `_` becomes a space, and a word's first letter is upper-cased |
| Finance.BankTransferLabel | src/pages/FinancialManagement.tsx:600 | `bank_transfer` is labelled `Bank Transfer` |
| Finance.ExpensePayload | src/pages/FinancialManagement.tsx:171-175 | an empty description is stored as null and reads back the same; the other fields are copied |
| Finance.SubmitExpense | src/pages/FinancialManagement.tsx:155-223 | no mess → "No mess found" and the form kept; otherwise an update or an insert (with the user as `added_by`) and the form reset |
| Finance.PaymentPayload | src/pages/FinancialManagement.tsx:241-246 | empty reference and notes are stored as null and read back the same; the other fields are copied |
| Finance.SubmitPayment | src/pages/FinancialManagement.tsx:225-295 | no mess → "No mess found" and the form kept; otherwise an update of the edited payment's id or an insert into the user's mess, and the form reset to cash |
| MemberDashboard.MonthlyShare | src/pages/MemberDashboard.tsx:133 | 0 without members; otherwise share × members = total expenses |
| MemberDashboard.DaysInMonth | src/pages/MemberDashboard.tsx:138 | 28 to 31 days; February has 29 iff the year is a Gregorian leap year; 31 exactly in the long months |
| MemberDashboard.YearLength | src/pages/MemberDashboard.tsx:138 | the months add up to 365 days, or 366 in a leap year |
| MemberDashboard.DueDate | src/pages/MemberDashboard.tsx:138 | the due date is a valid day of the current month, not before today, and the next day is the 1st of the next month (of the next year after December) |
| MemberDashboard.DueDateIsLastDay | src/pages/MemberDashboard.tsx:138 | any valid day of the current month whose next day is the 1st is the due date: `new Date(y, m + 1, 0)` is the month's last day |
| MemberDashboard.SinceMonthStart | src/pages/MemberDashboard.tsx:109-129 | the queries keep a row iff it is from this month or a later one |
| MemberDashboard.CalculateCostSummary | src/pages/MemberDashboard.tsx:107-150 | share, paid and balance are each within ½ of their unrounded values; the shown balance is within 1 of paid − share; the due date is the month's last day |
| MemberDashboard.ShareCoversExpenses | src/pages/MemberDashboard.tsx:133-141 | the rounded share times the member count is within half a share per member of the expenses |
| MemberDashboard.BalanceNoteOf | src/pages/MemberDashboard.tsx:249-253 | Credit iff the rounded balance is ≥ 0; otherwise due by the due date |
| MemberDashboard.CreditThreshold | src/pages/MemberDashboard.tsx:134-145 | Credit iff paid − share ≥ −½ |
| MemberDashboard.CategoryColor | src/pages/MemberDashboard.tsx:157-166 | the listed colour for breakfast, lunch, dinner and snacks; gray iff the category is none of them, "main" included |
| MemberDashboard.Ascending | src/pages/MemberDashboard.tsx:271 | the days sorted numerically: strictly increasing, the same set |
| MemberDashboard.MenuSections | src/pages/MemberDashboard.tsx:269-275 | one section per day with items |
| MemberDashboard.MenuSectionsAscend | src/pages/MemberDashboard.tsx:271 | sections are in strictly ascending day order |
| MemberDashboard.MenuSectionsCover | src/pages/MemberDashboard.tsx:269-273 | a section exists for a day iff that day has items |
| MemberDashboard.MenuSectionsContents | src/pages/MemberDashboard.tsx:273-274 | each section holds its day's items under its day's name |
| MemberDashboard.SectionsOfMenu | src/pages/MemberDashboard.tsx:268-275 | "No menu planned yet" iff there are no items; each section holds exactly its day's items, in order |
| Week.GroupByDay | src/pages/MemberDashboard.tsx:168-175 | the in-place grouping loop computes the day dictionary |
| Week.ByDayBucket | src/pages/MenuManagement.tsx:172-177 | a day has a list iff some item is on it, and the list is that day's items in order |
| Week.ItemInOwnDay | src/pages/MenuManagement.tsx:172-177 | each item is in its own day's list and in no other |
| Week.PlacedPush | src/pages/MenuManagement.tsx:174-175 | a push adds one item to the lists of days 0..n−1 iff the item's day is among them |
| Week.ByDayPlacesEveryItem | src/pages/MemberDashboard.tsx:168-175 | with days in 0..6, the seven lists together hold as many items as the input |
| Week.DayName | src/pages/MemberDashboard.tsx:152-155 | 0..6 name Sunday..Saturday; anything else is "Unknown" |
| Week.DayNamesDistinct | src/pages/MemberDashboard.tsx:153 | different days have different names, none of them "Unknown" |
| Menu.ColumnContents | src/pages/MenuManagement.tsx:290-321 | a column shows the placeholder iff no item has that day; otherwise it shows that day's items, in order and non-empty |
| Menu.Columns | src/pages/MenuManagement.tsx:280-290 | seven columns, Sunday first, each titled with its day's name and showing that day's `Column` of the grouped items, whose contents `ColumnContents` gives |
| Menu.DayOptions | src/pages/MenuManagement.tsx:258-262 | seven entries in the day select |
| Menu.DaySelectRoundTrip | src/pages/MenuManagement.tsx:253-260 | `parseInt(d.toString())` is `d`; entry d is labelled with day d's name; the form's day selects only entry d |
| Menu.CategoryLabel | src/pages/MenuManagement.tsx:242-246 | same length, first letter upper-cased, the rest unchanged |
| Menu.EditRoundTrip | src/pages/MenuManagement.tsx:90-170 | editing then saving keeps name, category and day; a null description stays null |
| Menu.SubmitMenuItem | src/pages/MenuManagement.tsx:76-135 | no mess → "No mess found" and the dialog kept; otherwise an update or an insert of the payload and the dialog reset |
| Menu.SubmitResetsForm | src/pages/MenuManagement.tsx:124 | after a save the dialog is an empty lunch item on Sunday |
| Notifications.UnreadWithId | src/components/NotificationCenter.tsx:181-188 | the unread notifications with one id are at most all the unread ones |
| Notifications.MarkedRead | src/components/NotificationCenter.tsx:182-188 | same length; notifications with the id become read, all others are unchanged |
| Notifications.AllRead | src/components/NotificationCenter.tsx:193-195 | same length; every notification is read and otherwise unchanged |
| Notifications.UnreadAfterMark | src/components/NotificationCenter.tsx:181-188 | after marking an id, the unread count drops by exactly the unread notifications with that id |
| Notifications.AllReadClears | src/components/NotificationCenter.tsx:192-197 | after mark-all nothing is unread, and a second mark-all changes nothing |
| Notifications.UnreadPrepend | src/components/NotificationCenter.tsx:177-178 | a new unread notification in front adds one to the unread count |
| Notifications.CountAfterClickAsWritten | src/components/NotificationCenter.tsx:189 | a positive counter drops by one; a counter at or below zero becomes 0, as `Math.max(0, prev - 1)` does |
| Notifications.ClickOnReadDrifts | src/components/NotificationCenter.tsx:45-189 | the samples have 3 unread; clicking the read sample "3" leaves 3 unread while the counter shows 2 |
| Notifications.CountAfterClick | src/components/NotificationCenter.tsx:189 | the corrected counter equals the unread count after the click, and stays between 0 and the old count |
| Notifications.ClickCountsAgree | src/components/NotificationCenter.tsx:189 | when exactly one unread notification has the id, both counters agree |
| Notifications.NotificationCenter.constructor | src/components/NotificationCenter.tsx:32-33 | an empty list and a zero counter, which agree |
| Notifications.NotificationCenter.GenerateNotifications | src/components/NotificationCenter.tsx:43-95 | the five samples, with the counter at 3, the number unread |
| Notifications.NotificationCenter.AddNotification | src/components/NotificationCenter.tsx:169-179 | exactly one unread notification is prepended and the rest of the list is unchanged; the counter rises by one and stays right |
| Notifications.NotificationCenter.MarkAsRead | src/components/NotificationCenter.tsx:181-190 | the list is marked by id; the counter drops by one (not below 0); it stays right when exactly one unread notification had the id |
| Notifications.NotificationCenter.MarkAsReadCounted | src/components/NotificationCenter.tsx:181-190 | the list is marked by id, and the counter drops by the unread notifications marked, so it stays right |
| Notifications.NotificationCenter.MarkAllAsRead | src/components/NotificationCenter.tsx:192-197 | every notification becomes read and the counter is 0 and right |
| Notifications.LowStockNotice | src/components/NotificationCenter.tsx:129-137 | an inventory update raises a "Low Stock Alert" warning iff stock ≤ minimum |
| Notifications.BadgeText | src/components/NotificationCenter.tsx:233-238 | no badge at 0; "9+" above 9; otherwise one digit that reads back as the count |
| Sidebar.NavigationItems | src/components/AppSidebar.tsx:35-85 | admin or manager gets the admin menu; any other or missing role gets the member menu |
| Sidebar.AnyActive | src/components/AppSidebar.tsx:80-87 | `some` holds iff some entry's url is exactly the current path |
| Sidebar.IsExpanded | src/components/AppSidebar.tsx:87 | the group is open iff the role's menu lists the current path |
| Sidebar.NavClasses | src/components/AppSidebar.tsx:89-92 | the accent style iff active, the hover style iff not |
| Sidebar.AtMostOneHighlighted | src/components/AppSidebar.tsx:35-92 | the menu urls are distinct, so at most one entry gets the accent style |
| Sidebar.SettingsAlwaysListed | src/components/AppSidebar.tsx:35-87 | every role's menu lists `/settings`, and on it the group is open |
| Sidebar.MemberMenuRestricted | src/components/AppSidebar.tsx:35-85 | the management pages are listed iff the role is admin or manager; the member dashboard iff it is not |
| Text.JoinSplit | src/pages/FinancialManagement.tsx:600 | joining the pieces of a split with the separator gives the string back |
| Text.SplitJoin | src/pages/Reports.tsx:135 | splitting a join of separator-free pieces gives the pieces back |
| Text.Lower | src/components/BudgetTracker.tsx:119 | `toLowerCase` keeps the length and lowers each letter |
| Text.Capitalize | src/pages/FinancialManagement.tsx:600 | `w.charAt(0).toUpperCase() + w.slice(1)` keeps the length and changes only the first letter |
| Text.TitleCaseShape | src/pages/FinancialManagement.tsx:600 | the label has the input's length, and each character is the title-cased one at its position |
| Text.ParseNatToString | src/pages/MenuManagement.tsx:253-259 | `parseInt(n.toString())` is `n` |

## Left out

- The backend calls are not modelled. This covers every query, insert, update and delete, the profile lookups, and their error toasts. Their results are parameters: the rows of a query, the resolved mess id as an `Option`, and the member count.
- The realtime channels in src/components/NotificationCenter.tsx:97-167 are an event feed. Only the low-stock test at line 130 and `addNotification` are modelled.
- The expense and payment notification texts are not modelled, nor is the low-stock notification's message with the item's name and stock; `Notifications.LowStockNotice` models only its title, kind, category and trigger.
- The notification timestamp and its "… ago" label are not modelled.
- The clock is not modelled. `Date.now()` ids and `new Date()` become parameters: `id` in `AddNotification`, and `today` in the cost summary and the blank forms.
- JavaScript floating point is not modelled. Amounts are exact `real`s, and `Math.round` is modelled exactly.
- `toLocaleString`, `toFixed` and number-to-text formatting are not modelled. The CSV takes the amount's text as a parameter.
- The text-to-number parsing of form fields (`Number(...)`, `parseFloat(...) || 0`) is not modelled. Amounts in the forms are numbers already.
- `Budget.BudgetTracker.AddBudget`: the amount field is an `Option<real>`, where `None` is the empty field. A field that is not a number (`Number('abc')` is NaN) is not modelled.
- Dates are (year, month, day) triples. The UTC conversion in `toISOString`, the local time of `getMonth`, and `toLocaleDateString` labels are not modelled.
- `Reports` keys months by (year, month) rather than by the label "Jan 2024". Both are one-to-one, so the buckets are the same.
- Case mapping covers ASCII letters only. Unicode case mapping is not modelled.
- `Object.entries` lists integer-like keys before other keys. The category names on these pages are never integer-like, so insertion order is modelled. The day dictionaries are read by key, and the member dashboard sorts them.
- In `MemberDashboard.CategoryColor`, a category named like an inherited object property (such as `constructor`) would read a function from the colour table. That case is not modelled. The `acc[k] || 0` reduces that `Aggregate.GroupSums` models (src/pages/Reports.tsx:85-89, src/components/BudgetTracker.tsx:79-83) share the quirk: such a key would start from the inherited function and concatenate text. Expense categories come from a fixed select (src/pages/FinancialManagement.tsx:454-461), so the page cannot produce one.
- The activities list on the reports page, the chart, the CSV download itself, and all markup, dialogs and toasts are not modelled.
- The finances page never sets `editingExpense` or `editingPayment`, so its update branches cannot be reached from the page. `Finance.SubmitExpense` and `Finance.SubmitPayment` still model both branches.
- The member dashboard filters payments by the user's id, while payment rows store profile ids. The model sums whatever payment rows it is given.
- `Budget.BudgetTracker.Load` takes the rows the budget query returns for the current month. That query's date bound is the same as the member dashboard's, which `MemberDashboard.SinceMonthStart` states.
- Settings, joining and creating a mess, member management, the static dashboard and landing pages, routing and layout are not part of this model.

## Findings

| source | as written | input that shows it | evidently intended | confidence | as-written member | corrected member |
|---|---|---|---|---|---|---|
| src/pages/Reports.tsx:212 | divides the all-time expense total by the number of shown months, at most 6 | seven months of 100 each: the card shows 117 | the total of the shown months divided by their number (100) | not executed | Reports.AvgMonthlyOverstates | Reports.AverageWithinMonths |
| src/pages/FinancialManagement.tsx:301-307 | "this month" compares only the month number, so the same month of any year counts | a 900 expense from May 2023, viewed in May 2024, counts as this month's | compare year and month | not executed | Finance.CurrentMonthIgnoresYear | Finance.CurrentMonthIsMonthBucket |
| src/components/NotificationCenter.tsx:189 | a click lowers the unread counter by one even when the notification was already read | clicking the read sample "3": the badge shows 2 while 3 are unread | lower the counter by the unread notifications the click marks read | not executed | Notifications.ClickOnReadDrifts | Notifications.NotificationCenter.MarkAsReadCounted |
