# Household finance tracker: a verified model of the bookkeeping core

This project models the bookkeeping core of a Hebrew-language personal
finance web application. The core covers:

- transactions (income or expense, with a payment method and a date);
- category budgets with a period;
- savings goals;
- the monthly summary derived from them;
- the month-by-month calendar view;
- the small user registry kept in browser storage.

Everything is written as immutable datatypes and pure functions over
sequences, sets and maps. Amounts are `real`, so sums are exact, and
dates are calendar dates.

Modules, following the program's structure:

- `Collections`: an order-preserving `Filter`, `Count`, the subsequence
  relation, and `SumOf`, the model of `reduce((sum, x) => sum + ..., 0)`.
  It also holds the algebra of these operations and the `Option` and
  `Result` types. `FilterDetermined` shows that being an in-order
  subsequence, satisfying the test throughout and having the count as
  length determine a filter's result, so the filter members state their
  results exactly, duplicates included.
- `Domain`: the records of `src/types`, including the period strings
  and the text of the type and payment-method selectors.
- `Dates`: the proleptic Gregorian calendar.
  - A day index counts days from 1970-01-01.
  - The weekday is the one `getDay` reports.
  - Month keys have next and previous steps.
  - "YYYY-MM" keys can be written and read back.
  - A date lies in the interval of a month exactly when it carries that
    month's year and month.
- `FinanceUtils` (`src/utils/financeUtils.ts` with the category catalog of
  `src/data/mockData.ts`):
  - category lookup and the summary;
  - totals per category name;
  - the most recent transactions;
  - budget status.
- `DateUtils` (`src/utils/dateUtils.ts`): month keys, month membership,
  the month filter and the available months.
- `UserService` (`src/services/userService.ts`): users, the current user
  and one data slot per user. All of it lives over storage, which is
  modelled as a map from key to stored value.
- `Store` (`src/hooks/useFinancialOperations.ts`): the hook's state and
  its operations:
  - initial load and the persistence effect;
  - the summary memo;
  - adding and deleting transactions;
  - partial settings updates;
  - adding, patching and deleting goals;
  - transfers to savings.
- `Calendar` (`CalendarManager.tsx`): month snapshots keyed by month,
  switching months, one-month navigation, the refresh effect and the month
  chips.
- `DailyWeeklyBudget`, `BudgetTableRow` and `BudgetForm`: the budget
  widgets.
- `FinancialManagement`: the panel with its own local goals, capped
  deposits and fixed monthly budgets.
- `SavingsManagement`: the panel working on the store's goals.
- `TransactionsPage` and `CreditPage`: the page filters.

The clock, the uuid generator, `Math.random` and "today" are explicit
parameters.

## Model

| member | source | states |
|---|---|---|
| FinanceUtils.CatalogIdsDistinct | src/data/mockData.ts:4-18 | no two catalog categories share an id |
| FinanceUtils.FindCategory | src/utils/financeUtils.ts:9-11 | `find` returns None exactly when no entry has the id, and otherwise the first entry with the id |
| FinanceUtils.GetCategoryById | src/utils/financeUtils.ts:9-11 | the result is a catalog entry with the requested id, and it is missing exactly when no catalog entry has that id |
| FinanceUtils.GetCategoryNameById | src/utils/financeUtils.ts:13-16 | a known id yields the name of the catalog entry with that id; an id absent from the catalog yields "לא ידוע" |
| FinanceUtils.OtherCategoriesShareName | src/data/mockData.ts:8-17 | ids "4" and "13" both resolve to the name "אחר" |
| FinanceUtils.CalculateSummary | src/utils/financeUtils.ts:18-42 | saved is income minus expense; an empty list gives the zero summary |
| FinanceUtils.SummaryStep | src/utils/financeUtils.ts:18-42 | the filter-and-sum summary equals a one-pass fold: appending one transaction changes the summary by exactly that transaction's contribution |
| FinanceUtils.FilteredSumStep | src/utils/financeUtils.ts:19-21 | a filtered sum grows by an appended transaction's amount exactly when the transaction passes the filter |
| FinanceUtils.SummaryBounds | src/utils/financeUtils.ts:18-42 | with non-negative amounts every total is non-negative, and credit plus cash never exceeds the expense total |
| FinanceUtils.IncomeExpenseSplit | src/utils/financeUtils.ts:19-25 | income plus expense is the sum of all amounts |
| FinanceUtils.AddToBucket | src/utils/financeUtils.ts:49-52 | the entry for the name grows by the amount, being created at 0 when missing, and the grand total grows by the amount |
| FinanceUtils.AddToBucketLookup | src/utils/financeUtils.ts:49-52 | every other name keeps its value and its presence; the added name is present afterwards |
| FinanceUtils.AddToBucketDistinct | src/utils/financeUtils.ts:49-52 | adding to an entry list keeps one entry per name |
| FinanceUtils.GroupTotals | src/utils/financeUtils.ts:47-53 | the entries together hold the sum of all amounts |
| FinanceUtils.GroupTotalsKey | src/utils/financeUtils.ts:47-53 | a key has an entry exactly when some transaction has that key, and the entry holds the sum of those transactions' amounts |
| FinanceUtils.GroupTotalsDistinct | src/utils/financeUtils.ts:47-53 | the grouping has one entry per key |
| FinanceUtils.GetTransactionsByCategory | src/utils/financeUtils.ts:44-56 | one entry per resolved name; an entry exists exactly for names some transaction resolves to; each entry is the sum of that name's amounts; the entries add up to the total |
| FinanceUtils.GroupTwoSameKey | src/utils/financeUtils.ts:47-53 | two transactions with the same key give a single entry holding both amounts |
| FinanceUtils.OtherCategoriesShareBucket | src/utils/financeUtils.ts:44-56 | an income under id "4" and an expense under id "13" land in one "אחר" entry |
| FinanceUtils.InsertByDate | src/utils/financeUtils.ts:59-60 | inserting into a newest-first list keeps it newest first and adds exactly the one element |
| FinanceUtils.SortByDateDesc | src/utils/financeUtils.ts:59-60 | the sort orders by date descending, is a permutation of its input, and is stable: the transactions of each date keep their input order |
| FinanceUtils.InsertKeepsEqualDatesOrder | src/utils/financeUtils.ts:59-60 | an inserted transaction goes in front of every transaction with its date, as the stable sort treats an earlier element |
| FinanceUtils.SliceEnd | src/utils/financeUtils.ts:61 | `slice(0, count)` keeps at most the whole list; a negative count counts from the end |
| FinanceUtils.SortedPrefixIsNewest | src/utils/financeUtils.ts:58-62 | a prefix of the sorted list is at least as recent as everything left out |
| FinanceUtils.SortedPrefixKeepsEarliest | src/utils/financeUtils.ts:58-62 | cutting the stable sort keeps, of each date, a prefix of that date's transactions in input order |
| FinanceUtils.GetRecentTransactions | src/utils/financeUtils.ts:58-62 | the result has length min(count, n), or n+count for a negative count; it is newest first, drawn from the input, and at least as recent as every transaction it leaves out; of each date it keeps the transactions earliest in input order |
| FinanceUtils.GetBudgetStatus | src/utils/financeUtils.ts:64-75 | budgets stay in order with every field but `spent` kept; `spent` is the sum of that category's expenses; no transactions means nothing spent |
| FinanceUtils.BudgetSpentStep | src/utils/financeUtils.ts:66-68 | a new transaction raises `spent` by its amount exactly when it is an expense of the budget's category |
| FinanceUtils.BudgetSpentIgnoresDates | src/utils/financeUtils.ts:66-68 | `spent` does not depend on transaction dates, whatever the budget's period |
| Dates.DaysInMonth | src/utils/dateUtils.ts:20-21 | months have 28 to 31 days; February has 29 exactly in a leap year |
| Dates.EpochIsThursday | src/components/dashboard/DailyWeeklyBudget.tsx:38 | day 0 is 1970-01-01, and its weekday is 4 (Thursday) |
| Dates.NextMonth | src/components/dashboard/CalendarManager.tsx:83 | `addMonths(1)` moves the ordinal up by one, wrapping December to January of the next year (in time zones at or east of UTC; see "## Left out") |
| Dates.PrevMonth | src/components/dashboard/CalendarManager.tsx:82 | `subMonths(1)` moves the ordinal down by one, wrapping January to December of the year before (in time zones at or east of UTC; see "## Left out") |
| Dates.NextPrevInverse | src/components/dashboard/CalendarManager.tsx:79-87 | one month forward and one back, in either order, return to the start |
| Dates.MonthStartsIncrease | src/utils/dateUtils.ts:18-24 | every day of an earlier month comes before the first day of a later month |
| Dates.InMonthIff | src/utils/dateUtils.ts:18-24 | a date lies between the first and last day of a month exactly when its year and month are that month's |
| Dates.InMonthUnique | src/utils/dateUtils.ts:18-24 | a date lies in exactly one month interval |
| Dates.StampMatchesDayIndex | src/utils/financeUtils.ts:60 | the year-month-day sort key orders dates the same way the clock does |
| Dates.MonthOf | src/utils/dateUtils.ts:9-11 | the month a date lies in carries the date's year and month |
| Dates.KeyString | src/utils/dateUtils.ts:9-11 | `format(date, 'yyyy-MM')` is seven characters: four digits, a dash and two digits |
| Dates.KeyStringRoundTrip | src/utils/dateUtils.ts:9-11 | reading a written month key back gives the same month |
| DateUtils.GetMonthKey | src/utils/dateUtils.ts:9-11 | the key of a date reads back as that date's month |
| DateUtils.IsTransactionInMonth | src/utils/dateUtils.ts:18-24 | the interval test holds exactly when the date's year and month are the key's |
| DateUtils.FilterTransactionsByMonth | src/utils/dateUtils.ts:26-33 | the result is the in-order subsequence of exactly that month's transactions |
| DateUtils.FilterByMonthIsKeyFilter | src/utils/dateUtils.ts:26-33 | filtering by the interval test equals filtering by equality of month keys |
| DateUtils.FilterByMonthPartition | src/utils/dateUtils.ts:26-33 | each transaction is kept by its own month's filter and by no other |
| DateUtils.MonthSet | src/utils/dateUtils.ts:36-41 | the set holds exactly the months some transaction falls in |
| DateUtils.Latest | src/utils/dateUtils.ts:43 | a non-empty month set has a newest member |
| DateUtils.SortDescending | src/utils/dateUtils.ts:43 | `sort().reverse()` lists every key of the set once, strictly newest first |
| DateUtils.GetAllAvailableMonths | src/utils/dateUtils.ts:35-44 | the months that occur, without duplicates, strictly newest first, and no others |
| DateUtils.EachTransactionInOneMonth | src/utils/dateUtils.ts:35-44 | every transaction falls in exactly one of the listed months |
| UserService.KeysDistinct | src/services/userService.ts:6-8 | the user-list key, the current-user key and the data keys never collide, and different ids give different data keys |
| UserService.GetUsers | src/services/userService.ts:12-15 | with nothing stored the list is empty |
| UserService.SaveUsers | src/services/userService.ts:18-20 | the list reads back as saved; every other key is untouched |
| UserService.GetCurrentUser | src/services/userService.ts:67-70 | with nothing stored there is no current user |
| UserService.Logout | src/services/userService.ts:62-64 | no current user afterwards; every other key is untouched |
| UserService.LogoutKeepsLists | src/services/userService.ts:62-64 | logging out keeps the user list and every data slot |
| UserService.GetUserData | src/services/userService.ts:78-81 | a missing slot reads as empty transactions and budgets |
| UserService.SaveUserData | src/services/userService.ts:73-75 | the slot reads back as saved; other users' slots, the list and the current user are unchanged |
| UserService.CreateUser | src/services/userService.ts:23-46 | fails with "שם משתמש כבר קיים" exactly when the username is taken; otherwise appends the user, gives them an empty slot and changes nothing else |
| UserService.CreateUserKeepsUnique | src/services/userService.ts:23-46 | registration keeps usernames unique |
| UserService.FindLogin | src/services/userService.ts:51 | returns the first user matching both credentials, or none when no user matches |
| UserService.Login | src/services/userService.ts:49-59 | with no match storage is unchanged and the result is null; otherwise the first matching user in the list becomes current and nothing else changes |
| UserService.LoginAfterCreate | src/services/userService.ts:23-59 | a freshly registered user can log in with the same credentials |
| UserService.DeleteUser | src/services/userService.ts:84-95 | the user leaves the list and their slot goes; logs out exactly when they were current; other slots stay |
| UserService.DropUserAndSlot | src/services/userService.ts:85-88 | the first two steps of deletion keep the current user and the other slots |
| UserService.DeleteUserKeepsUnique | src/services/userService.ts:84-95 | deletion keeps usernames unique |
| UserService.SubseqUnique | src/services/userService.ts:86 | a subsequence of a list with unique usernames has unique usernames |
| Store.DefaultSettings | src/hooks/useFinancialOperations.ts:13-19 | the defaults are 8000, 6000, 2000 and ILS, and the income goal minus the expense limit is the savings goal |
| Store.DisplayNameFor | src/hooks/useFinancialOperations.ts:18 | the user's display name when it is non-empty, and 'משתמש' when there is no user or the name is empty |
| Store.LoadedData | src/hooks/useFinancialOperations.ts:8-9 | the current user's slot, or empty data with no current user |
| Store.InitialStore | src/hooks/useFinancialOperations.ts:8-40 | transactions and budgets come from the slot; settings are always the defaults; goals are the two seeded goals |
| Store.InitialStoreRestoring | src/hooks/useFinancialOperations.ts:8-40 | as the initial state, but settings saved in the slot are restored |
| Store.SaveStore | src/hooks/useFinancialOperations.ts:43-47 | with a current user, their slot receives transactions, budgets and settings; without one, storage is untouched |
| Store.SaveThenLoadTransactions | src/hooks/useFinancialOperations.ts:9-47 | save then reload brings back transactions and budgets |
| Store.SettingsLostOnReload | src/hooks/useFinancialOperations.ts:13-47 | save then reload loses a changed income goal |
| Store.SaveThenRestore | src/types/user.ts:10-14 | with restoring, save then reload brings back transactions, budgets and settings |
| Store.StoreSummary | src/hooks/useFinancialOperations.ts:50-69 | saved is income minus expense; no transactions gives zeros |
| Store.StoreSummaryAgrees | src/hooks/useFinancialOperations.ts:50-69 | the memo agrees with `calculateSummary` on income, expense, saved and credit debt |
| Store.AddTransaction | src/hooks/useFinancialOperations.ts:71-73 | appends at the end and changes nothing else |
| Store.DeleteTransaction | src/hooks/useFinancialOperations.ts:75-77 | keeps, in order and with their multiplicity, exactly the transactions with another id, and changes nothing else |
| Store.DeleteUnknownTransaction | src/hooks/useFinancialOperations.ts:75-77 | deleting an id nobody carries changes nothing |
| Store.AddThenDelete | src/hooks/useFinancialOperations.ts:71-77 | adding a fresh-id transaction and deleting it restores the state and the summary |
| Store.UpdateSettings | src/hooks/useFinancialOperations.ts:79-81 | each field present in the patch is taken, each absent one kept; nothing else changes |
| Store.UpdateSettingsCompose | src/hooks/useFinancialOperations.ts:79-81 | an empty patch changes nothing; two updates equal one update with the merged patch |
| Store.DecimalString | src/hooks/useFinancialOperations.ts:93 | `toString()` of the clock is a non-empty run of digits |
| Store.DecimalStringInjective | src/hooks/useFinancialOperations.ts:93 | different clock values give different ids |
| Store.ColorIndex | src/hooks/useFinancialOperations.ts:94 | the random pick indexes one of the four colours |
| Store.AddSavingsGoal | src/hooks/useFinancialOperations.ts:83-98 | appends the submitted goal with the clock id and one of the four colours, and changes nothing else |
| Store.PatchGoals | src/hooks/useFinancialOperations.ts:101-105 | each goal with the id is patched and every other goal is kept, in place |
| Store.UpdateSavingsGoal | src/hooks/useFinancialOperations.ts:100-106 | goals with the id are patched, others kept, nothing else changes |
| Store.UnknownGoalUntouched | src/hooks/useFinancialOperations.ts:100-110 | update and delete of an id nobody carries change nothing |
| Store.DeleteSavingsGoal | src/hooks/useFinancialOperations.ts:108-110 | keeps, in order and with their multiplicity, exactly the goals with another id, and changes nothing else |
| Store.FindGoal | src/hooks/useFinancialOperations.ts:119 | the first goal with the id, or none exactly when no goal has it |
| Store.TransferTransaction | src/hooks/useFinancialOperations.ts:114-124 | an income by bank transfer in category "saving", with the clock id and today's date; described with the goal's name when a goal is given |
| Store.TransferToSavings | src/hooks/useFinancialOperations.ts:112-134 | records the transfer; with a goal, every goal with that id becomes the first such goal's amount plus the transfer, uncapped; other goals, budgets and settings stay |
| Store.TransferSummaryDelta | src/hooks/useFinancialOperations.ts:112-134 | income and saved rise by the amount; expense and credit debt stay |
| Store.TransferRaisesGoal | src/hooks/useFinancialOperations.ts:129-133 | with unique ids the named goal grows by exactly the amount and keeps its other fields |
| Store.TransferLeavesOtherGoals | src/hooks/useFinancialOperations.ts:129-133 | with unique ids every other goal stays as it was |
| Calendar.EmptySnapshot | src/components/dashboard/CalendarManager.tsx:42-47 | the fallback snapshot is empty and its summary is that of no transactions |
| Calendar.InitialCalendar | src/components/dashboard/CalendarManager.tsx:24-39 | one snapshot, for today's month, holding the live data; the state is consistent |
| Calendar.GetCurrentMonthData | src/components/dashboard/CalendarManager.tsx:41-48 | the stored snapshot of the current month, or an empty snapshot labelled with the current month; consistent states give a snapshot labelled with its month and carrying its own summary |
| Calendar.ResetSpent | src/components/dashboard/CalendarManager.tsx:56 | the budgets with `spent` set to 0 and nothing else changed |
| Calendar.ResetSpentIsEmptyStatus | src/components/dashboard/CalendarManager.tsx:56 | a new month's budgets are the budget status of no transactions |
| Calendar.SwitchToMonth | src/components/dashboard/CalendarManager.tsx:50-77 | the month becomes current; a blank snapshot is inserted only when it had none; existing snapshots are never touched; consistency is kept |
| Calendar.NavigateMonth | src/components/dashboard/CalendarManager.tsx:79-87 | the current month moves one ordinal forward or back; every stored snapshot is kept, only the new month can be added, as a blank snapshot with nothing spent, and the new month's snapshot is the one handed on; consistency is kept |
| Calendar.NavigateNextThenPrev | src/components/dashboard/CalendarManager.tsx:79-87 | forward then back returns to the month and its snapshot, adding nothing more |
| Calendar.Refresh | src/components/dashboard/CalendarManager.tsx:98-114 | only the current snapshot changes, taking the live transactions, their budget status and summary; consistency is kept |
| Calendar.StoreKeepsConsistent | src/components/dashboard/CalendarManager.tsx:107-113 | storing a well-formed snapshot keeps the state consistent |
| Calendar.RefreshUnchanged | src/components/dashboard/CalendarManager.tsx:98-114 | refreshing with the data already stored changes nothing |
| Calendar.RefreshIdempotent | src/components/dashboard/CalendarManager.tsx:98-114 | refreshing twice equals refreshing once |
| Calendar.MonthChips | src/components/dashboard/CalendarManager.tsx:210-213 | at most six months with data, strictly newest first, each newer than every month left out |
| Calendar.NewestOf | src/components/dashboard/CalendarManager.tsx:210-213 | the first n keys newest first come from the set and are newer than all the rest |
| Calendar.PrefixIsNewest | src/components/dashboard/CalendarManager.tsx:213 | a prefix of a strictly descending list is strictly descending and newer than the rest |
| DailyWeeklyBudget.BudgetForPeriod | src/components/dashboard/DailyWeeklyBudget.tsx:14-27 | per day: a daily budget is the amount, and a weekly, monthly, yearly or unknown one is a 7th, 30th, 365th or 30th of it; per week: a daily budget is seven times the amount, a weekly one the amount, and a monthly, yearly or unknown one a 4th, 52nd or 4th; non-negative amounts give a non-negative share; a day never exceeds the amount |
| DailyWeeklyBudget.UnknownPeriodIsMonthly | src/components/dashboard/DailyWeeklyBudget.tsx:24-25 | a period the card does not know converts exactly as a monthly one |
| DailyWeeklyBudget.WeekToDayRatio | src/components/dashboard/DailyWeeklyBudget.tsx:14-27 | the week is 7 days for daily and weekly budgets, 7.5 for monthly and unknown periods, and 365/52 for yearly |
| DailyWeeklyBudget.PeriodStart | src/components/dashboard/DailyWeeklyBudget.tsx:30-41 | the daily window starts today; the weekly window starts on the latest Sunday, at most six days back |
| DailyWeeklyBudget.SpentForPeriod | src/components/dashboard/DailyWeeklyBudget.tsx:29-50 | with non-negative amounts, the spending is between 0 and the budget's all-time spending |
| DailyWeeklyBudget.SpentForPeriodStep | src/components/dashboard/DailyWeeklyBudget.tsx:43-49 | no transactions spend 0, and an appended transaction adds its amount exactly when it is an expense of the budget's category dated on or after the period's first day |
| DailyWeeklyBudget.WeeklySpentCoversDaily | src/components/dashboard/DailyWeeklyBudget.tsx:29-50 | weekly spending is at least daily spending |
| DailyWeeklyBudget.TotalBudget | src/components/dashboard/DailyWeeklyBudget.tsx:52-58 | non-negative amounts give a non-negative total |
| DailyWeeklyBudget.TotalBudgetStep | src/components/dashboard/DailyWeeklyBudget.tsx:52-58 | the total over no budgets is 0, and one more budget adds exactly its converted amount |
| DailyWeeklyBudget.TotalSpent | src/components/dashboard/DailyWeeklyBudget.tsx:60-66 | non-negative amounts give a non-negative total |
| DailyWeeklyBudget.TotalSpentStep | src/components/dashboard/DailyWeeklyBudget.tsx:60-66 | the total over no budgets is 0, and one more budget adds exactly its spending in the period |
| DailyWeeklyBudget.TotalWeeklySpentCoversDaily | src/components/dashboard/DailyWeeklyBudget.tsx:60-66 | the weekly total spent is at least the daily total spent |
| DailyWeeklyBudget.Percent | src/components/dashboard/DailyWeeklyBudget.tsx:68-69 | at most 100; 0 without a positive budget; 100 exactly when spending reaches the budget; otherwise spent over budget times 100 |
| BudgetTableRow.PeriodName | src/components/budget/BudgetTableRow.tsx:14-27 | "daily", "weekly", "monthly" and "yearly" get "יומי", "שבועי", "חודשי" and "שנתי", each different from the period; any other text is shown as is |
| BudgetTableRow.PeriodNameInjective | src/components/budget/BudgetTableRow.tsx:14-27 | distinct known periods get distinct labels |
| BudgetTableRow.DailyBudget | src/components/budget/BudgetTableRow.tsx:29-42 | a daily budget is its amount per day; a weekly, monthly, yearly or unknown one is a 7th, 30th, 365th or 30th of it; this equals the daily figure of the daily/weekly card |
| BudgetTableRow.HourlyBudget | src/components/budget/BudgetTableRow.tsx:44-47 | 24 hours make up the daily share |
| BudgetTableRow.Round | src/components/budget/BudgetTableRow.tsx:61 | `Math.round` is within half of its argument, with halves rounded up |
| BudgetTableRow.Percentage | src/components/budget/BudgetTableRow.tsx:61 | at most 100; non-negative spending gives at least 0; 100 exactly when at least 99.5% is spent; below 100 it is `Math.round` of spent/amount·100, halves rounded up |
| BudgetTableRow.PercentageNearCard | src/components/budget/BudgetTableRow.tsx:61 | the rounded row percentage p and the card's percentage q satisfy q − ½ < p ≤ q + ½ |
| BudgetTableRow.Remaining | src/components/budget/BudgetTableRow.tsx:62 | spent plus remaining is the amount; negative exactly when overspent |
| BudgetForm.AvailableCategories | src/components/budget/BudgetForm.tsx:58-60 | the in-order subsequence, with multiplicity, of exactly the expense categories no budget is for |
| BudgetForm.BudgetedStep | src/components/budget/BudgetForm.tsx:60 | a category is budgeted after an addition exactly when it was before or is the new budget's |
| BudgetForm.AddBudgetRemovesOnlyItsCategory | src/components/budget/BudgetForm.tsx:58-60 | adding a budget removes exactly its category from the offer |
| BudgetForm.HandleAddBudget | src/components/budget/BudgetForm.tsx:62-68 | the payload carries the form's category, amount and period, with nothing spent |
| BudgetForm.NewBudgetRow | src/components/budget/BudgetForm.tsx:35-68 | a budget from a valid form shows 0%, its whole amount remaining and a Hebrew period label |
| BudgetForm.ChosenCategoryKeepsUnique | src/components/budget/BudgetForm.tsx:58-68 | choosing from the offer keeps one budget per category |
| FinancialManagement.InitialGoalsWithinTarget | src/components/dashboard/FinancialManagement.tsx:53-70 | no seeded local goal exceeds its target |
| FinancialManagement.AddLocalGoal | src/components/dashboard/FinancialManagement.tsx:90-103 | with name, target and deadline filled in, appends a goal with nothing saved and category defaulting to "כללי", then clears the form; otherwise nothing changes |
| FinancialManagement.AddLocalGoalKeepsWithinTarget | src/components/dashboard/FinancialManagement.tsx:90-103 | with a non-negative target, adding keeps every goal within its target |
| FinancialManagement.UpdateGoalProgress | src/components/dashboard/FinancialManagement.tsx:105-113 | goals with the id gain the amount, capped at their target; other fields and other goals stay |
| FinancialManagement.UpdateKeepsWithinTarget | src/components/dashboard/FinancialManagement.tsx:105-113 | a deposit keeps every goal within its target |
| FinancialManagement.DepositNeverLowers | src/components/dashboard/FinancialManagement.tsx:105-113 | a non-negative deposit never lowers a goal, and a goal at its target stays there |
| FinancialManagement.DepositsCombine | src/components/dashboard/FinancialManagement.tsx:105-113 | two deposits equal one deposit of their sum when the first stays under the target |
| FinancialManagement.InitialAlertsMatchOverBudget | src/components/dashboard/FinancialManagement.tsx:72-76 | in the seeded budgets the alert flag marks exactly the over-budget ones |
| FinancialManagement.BudgetNote | src/components/dashboard/FinancialManagement.tsx:362-364 | the distance between spent and limit; 0 exactly when they are equal |
| FinancialManagement.BudgetBar | src/components/dashboard/FinancialManagement.tsx:338-357 | at most 100; 100 exactly when spent reaches the limit; otherwise spent over limit times 100 |
| SavingsManagement.CategoryOrGeneral | src/components/dashboard/SavingsManagement.tsx:49 | the typed category, or "כללי" when empty |
| SavingsManagement.HandleAddSavingsGoal | src/components/dashboard/SavingsManagement.tsx:42-60 | with the form filled in, the store gains one goal with nothing saved and the form is cleared; otherwise nothing changes |
| SavingsManagement.AddGoalKeepsIdsUnique | src/components/dashboard/SavingsManagement.tsx:42-60 | a clock value no goal id uses keeps goal ids unique |
| SavingsManagement.AddToSavingsGoal | src/components/dashboard/SavingsManagement.tsx:72-85 | a positive amount with a selected goal makes a transfer and clears the form; a selected id no goal carries throws the TypeError of the non-null assertion (src/hooks/useFinancialOperations.ts:131); otherwise nothing changes |
| SavingsManagement.HandleDeleteSavingsGoal | src/components/dashboard/SavingsManagement.tsx:62-70 | the store deletes exactly the goals with the id, keeping the others in order, and the deposit form, selection included, is untouched |
| SavingsManagement.StaleSelectionThrows | src/components/dashboard/SavingsManagement.tsx:62-85 | deleting the selected goal and then depositing a positive amount throws |
| SavingsManagement.HandleDeleteSavingsGoalClearing | src/components/dashboard/SavingsManagement.tsx:62-70 | corrected handler: deletes as before and clears the selection exactly when it named the deleted goal |
| SavingsManagement.ClearingKeepsDepositSafe | src/components/dashboard/SavingsManagement.tsx:62-85 | with the corrected handler the selection stays empty or names an existing goal, and a deposit never throws |
| SavingsManagement.DepositRaisesTotal | src/components/dashboard/SavingsManagement.tsx:72-88 | a deposit raises the goal and the total saved by the amount, and leaves the targets unchanged |
| SavingsManagement.OverallProgress | src/components/dashboard/SavingsManagement.tsx:87-89 | 0 without a positive target total; otherwise saved over target times 100 |
| SavingsManagement.OverallProgressBounded | src/components/dashboard/SavingsManagement.tsx:87-89 | goals within their targets give progress between 0 and 100 |
| SavingsManagement.GoalProgress | src/components/dashboard/SavingsManagement.tsx:239 | saved over target times 100; above 100 exactly when the goal is exceeded |
| SavingsManagement.GoalBar | src/components/dashboard/SavingsManagement.tsx:272 | capped at 100; 100 exactly when the target is reached; below the target it equals the progress |
| SavingsManagement.ProgressCanPassHundred | src/components/dashboard/SavingsManagement.tsx:239-274 | depositing 10000 into the first default goal gives a printed progress above 100 and a full bar |
| TransactionsPage.LowerChar | src/pages/TransactionsPage.tsx:42-43 | Latin capitals map to their small letters; every other character is unchanged |
| TransactionsPage.Lower | src/pages/TransactionsPage.tsx:42-43 | lowering keeps the length and lowers each character |
| TransactionsPage.LowerIdempotent | src/pages/TransactionsPage.tsx:42-43 | lowering twice is lowering once |
| TransactionsPage.ContainsLowered | src/pages/TransactionsPage.tsx:42-43 | an occurrence stays an occurrence after lowering both sides |
| TransactionsPage.ContainsEmpty | src/pages/TransactionsPage.tsx:42 | the empty query occurs in every text |
| TransactionsPage.FilteredTransactions | src/pages/TransactionsPage.tsx:40-54 | the in-order subsequence, with multiplicity, of exactly the transactions passing search, type and payment filters |
| TransactionsPage.UnfilteredShowsAll | src/pages/TransactionsPage.tsx:40-54 | an empty search with both selectors on "all" shows everything |
| TransactionsPage.SelectorsPinFields | src/pages/TransactionsPage.tsx:45-51 | a selector other than "all" pins the type or method of every row shown |
| TransactionsPage.SearchIgnoresCase | src/pages/TransactionsPage.tsx:41-43 | queries with the same lower case show the same rows |
| TransactionsPage.LiteralQueryFinds | src/pages/TransactionsPage.tsx:41-43 | a query occurring literally in the description or category name finds the row |
| TransactionsPage.HandleAddTransaction | src/pages/TransactionsPage.tsx:36-38 | the new transaction goes at the end of the list |
| TransactionsPage.AddedShownIffMatches | src/pages/TransactionsPage.tsx:36-54 | after an addition the shown list gains the transaction at the end exactly when it passes the filters |
| CreditPage.CreditTransactions | src/pages/CreditPage.tsx:26-28 | the in-order subsequence, with multiplicity, of exactly the credit-card expenses |
| CreditPage.TotalCredit | src/pages/CreditPage.tsx:30 | equals the summary's credit debt; with non-negative amounts it is between 0 and the total expense |
| CreditPage.TotalCreditStep | src/pages/CreditPage.tsx:26-30 | a new transaction raises the total exactly when it is a credit expense; an income never does |
| CreditPage.TotalCreditIsFold | src/pages/CreditPage.tsx:26-30 | the total is the credit figure of the summary fold |

## Left out

- Time zones, `toISOString` and the millisecond clock. Dates are calendar
  days. "Today" and the clock value are parameters. `new Date(t.date) >= startDate`
  is compared at day resolution.
- Calendar.NavigateMonth: holds in time zones at or east of UTC only.
  `navigateMonth` (CalendarManager.tsx:80) parses `key + '-01'`, which
  JavaScript reads as UTC midnight. `addMonths` and `subMonths` then work
  in local time. West of UTC that instant is the last day of the previous
  month. So "next" stays in the same month and "prev" skips one. The model,
  like Dates.NextMonth and Dates.PrevMonth, moves by exactly one month.
- Month-key order. The program sorts "YYYY-MM" strings. The model sorts
  months by their ordinal. For four-digit years the two orders agree.
- Dates.KeyString: covers years 0 to 9999 only, the range where
  `format(..., 'yyyy-MM')` writes four digits.
- DateUtils.GetMonthKey: also requires a year in 0..9999, for the same
  reason.
- Invalid dates, `NaN` amounts and text that `Number` cannot read. Stored
  dates are valid calendar dates. The deposit form's unreadable amount is
  `None`.
- Floating point. Amounts are exact reals, so `0.1 + 0.2` rounding is not
  modelled.
- `formatCurrency`, `getMonthDisplayName`, `toLocaleString`, `toFixed` and
  the Hebrew month names: presentation only.
- JSON encoding and decoding. Storage holds values, not their JSON text.
  Stored text that does not parse, which would make `JSON.parse` throw, is
  left out.
- `uuidv4`, `Date.now()` and `Math.random()`: passed in as `newId`,
  `now` and `roll`.
- React state batching, effects that run twice, toasts and dialog state.
  Each handler is one state transition.
- `onMonthChange` and `onCalendarSelect` of the calendar. The callback is
  represented only by the snapshot `SwitchToMonth` returns.
- `addBudget`, `updateBudget` and `deleteBudget`. The form and the row call
  them, but no file in this model defines them. Only the draft handed to
  `addBudget` is modelled.
- `saveIncome` and `saveExpenses` of `FinancialManagement.tsx`
  (lines 115-125). They only forward edited numbers to an optional parent
  callback.
- The `daysLeft` figure of the savings panel, which reads the wall clock.
- `toLowerCase` beyond ASCII. Hebrew letters have no case. Other scripts
  with case are not modelled.
- BudgetTableRow.Percentage: requires a positive amount. The source
  divides by the amount and would show `Infinity` or `NaN`.
- FinancialManagement.BudgetBar: requires a positive limit, for the same
  reason.
- SavingsManagement.GoalProgress: requires a positive target, for the same
  reason.
- SavingsManagement.GoalBar: requires a positive target, for the same
  reason.
- Store.TransferToSavings: requires that a named goal exists, because it
  dereferences the goal with a non-null assertion. The throw on a missing
  goal is modelled in SavingsManagement.AddToSavingsGoal, the deposit
  handler that calls it.
- SavingsManagement.AddToSavingsGoal: on the throw the model returns only
  the error. The transfer transaction queued by `addTransaction` before the
  throw is a React state update whose fate is not modelled.
- Store.ColorIndex: requires a draw in [0, 1), the range of
  `Math.random()`.
- Explicitly `undefined` fields in a partial update. A patch field is
  either present with a value or absent.

## Findings

| source | as written | input that shows it | evidently intended | confidence | as-written member | corrected member |
|---|---|---|---|---|---|---|
| src/hooks/useFinancialOperations.ts:13-19 | settings always start from the hard-coded defaults. The effect at lines 43-47 saves settings into the user's slot, and the slot's type declares them (src/types/user.ts:13). Nothing ever reads them back. | A logged-in user sets the income goal to 9000. The effect saves it. On reload the income goal is 8000 again. | Restore saved settings when the slot has them. | not executed | Store.InitialStore, Store.SettingsLostOnReload | Store.InitialStoreRestoring, Store.SaveThenRestore |
| src/components/dashboard/SavingsManagement.tsx:62-70 | deleting a goal leaves `selectedGoalId` as it was. The deposit handler then passes the deleted id to `transferToSavings`, whose `find(...)!.currentAmount` (src/hooks/useFinancialOperations.ts:131) reads a property of `undefined`. | Select goal "1" in the deposit dialog, close it, delete goal "1", reopen the dialog and deposit 100: a TypeError is thrown. | Clear the selection when the selected goal is deleted. | not executed | SavingsManagement.HandleDeleteSavingsGoal, SavingsManagement.StaleSelectionThrows | SavingsManagement.HandleDeleteSavingsGoalClearing, SavingsManagement.ClearingKeepsDepositSafe |
