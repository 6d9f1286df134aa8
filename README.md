# Budget tracker, modelled in Dafny

A model of the budget tracker's logic. It covers:

- the monthly store and its handlers in the App component;
- the month selector's calendar arithmetic;
- the quick-entry form;
- the figures the dashboard cards compute (budget status, financial health, spending overview, category breakdown, monthly analysis);
- the transaction list's day grouping;
- the rule-based insight engine.

Each operation is modelled in the source's own form:

- Pure calculations are functions with contracts.
- The `forEach`/`reduce` loops that fill dictionaries are methods with loop invariants, proved against specification functions.
- The App component and the form, whose state is replaced by handlers, are classes whose methods state their whole new state.

Files, one module each:

| file | module | models |
|---|---|---|
| `wrappers.dfy` | `Wrappers` | `Option` |
| `seqs.dfy` | `Seqs` | `Array.prototype.filter`, a stable descending sort by a numeric key |
| `records.dfy` | `Records` | string-keyed objects filled by `forEach`/`reduce`: keys in insertion order plus a map |
| `js_text.dfy` | `JsText` | digit stripping, en-US integer grouping, `parseInt`, `parseFloat`, `trim`, `split`, `join`, `padStart`, code-point string order |
| `types.dfy` | `Types` | `Transaction`, `MonthData`, `BudgetStats`, savings rate, `Math.round`, ISO date reading |
| `financial_analyzer.dfy` | `FinancialAnalyzer` | `generateFinancialInsights` |
| `budget_status.dfy` | `BudgetStatus` | `calculateBudgetStatus`, the limit editor |
| `financial_health.dfy` | `FinancialHealth` | `calculateFinancialHealth` |
| `spending_overview.dfy` | `SpendingOverview` | `calculateBudgetPercentage` |
| `category_breakdown.dfy` | `CategoryBreakdown` | `calculateCategoryBreakdown` |
| `spending_details.dfy` | `SpendingDetails` | the monthly analysis card |
| `transaction_list.dfy` | `TransactionList` | grouping by day and sorting the days |
| `month_selector.dfy` | `MonthSelector` | month key parsing, days of the month, `navigateMonth` |
| `transaction_form.dfy` | `TransactionForm` | the form's handlers and submit gate |
| `app.dfy` | `BudgetApp` | the store, `updateMonthData`, `addTransaction`, delete, limit change, day filter, monthly stats |

## Modelling choices

- **Numbers:**
  - Amounts are integers; the form only ever produces whole amounts.
  - Ratios and percentages are reals.
  - `Math.round(x)` is `floor(x + 0.5)`.
- **Messages:**
  - Warnings and recommendations are constructors. The overage and the category name travel as fields.
  - The summary is kept as its list of fragments; `SummaryText` is the string, the fragments' texts joined with single spaces.
- **Objects:** a JavaScript object filled key by key is a sequence of keys in first-insertion order plus a map. `Object.entries` and `Object.keys` follow that order, which holds for keys that are own, non-index names (see "## Left out").
- **Sorting:**
  - `sort` with a numeric comparator is a stable insertion sort.
  - `localeCompare` on `YYYY-MM-DD` keys is code-point (Unicode scalar value) order on the characters, which orders such ASCII keys the same way.
- **Dates:**
  - A date string is read as the ISO form `toISOString` writes, in UTC.
  - `new Date(date).getDate()` is the two digits at positions 8 and 9.
  - `split('T')[0]` is the text before the first `T`.
  - `new Date(y, m)` normalises the month index into the year and reads a year of 0 to 99 as 1900 to 1999.
- **Inputs for the outside world:** the clock (today's month key, day of the month, time of day), the random id and the submit time are parameters.
- **The health score without income follows the code:** with income 0 the savings rate is taken as 0, so the base score is 40 (Average), not 10. `NoIncomeScores` states this.

## Model

| member | source | states |
|---|---|---|
| FinancialAnalyzer.BudgetUsage | services/financialAnalyzer.ts:29 | usage is 0 without a limit, else usage × limit = expenses × 100 |
| FinancialAnalyzer.UsageAbove | services/financialAnalyzer.ts:50 | usage above 90% iff 10 × expenses > 9 × limit |
| FinancialAnalyzer.Risk | services/financialAnalyzer.ts:45-54 | High iff a positive limit is exceeded; Medium iff under a positive limit with usage above 90%; Low without a limit |
| FinancialAnalyzer.RateFragments | services/financialAnalyzer.ts:37-43 | rule 1 gives at most one summary fragment, of rule rank 0 |
| FinancialAnalyzer.HistoryFragments | services/financialAnalyzer.ts:62-72 | rule 4 gives at most one summary fragment, of rule rank 1 |
| FinancialAnalyzer.RateWarnings | services/financialAnalyzer.ts:37-38 | rule 1 gives at most one warning, of rank 0 |
| FinancialAnalyzer.BudgetWarnings | services/financialAnalyzer.ts:46-54 | the budget warning is the overage for High risk, the approaching-limit warning for Medium, none for Low |
| FinancialAnalyzer.HistoryWarnings | services/financialAnalyzer.ts:63-69 | rule 4 gives at most one warning, of rank 2 |
| FinancialAnalyzer.CategoryRecommendations | services/financialAnalyzer.ts:57-60 | at most one concentration recommendation, of rank 0 |
| FinancialAnalyzer.RiskRecommendations | services/financialAnalyzer.ts:75-77 | at most one immediate-action recommendation, of rank 1 |
| FinancialAnalyzer.SurplusRecommendations | services/financialAnalyzer.ts:78-80 | at most one surplus recommendation, of rank 2 |
| FinancialAnalyzer.SummaryFragments | services/financialAnalyzer.ts:36-72 | excellent iff rate ≥ 30; steady iff 10 ≤ rate < 30; keep-tracking iff no previous month; great-progress iff savings grew; in rule order; at most two |
| FinancialAnalyzer.SummaryText | services/financialAnalyzer.ts:83 | empty without fragments; one fragment's text alone; two fragments' texts with one space between; otherwise it starts with the first fragment's text |
| FinancialAnalyzer.Warnings | services/financialAnalyzer.ts:36-72 | low-savings iff rate < 10; the overage warning carries expenses − limit and appears iff risk is High; approaching iff Medium; savings-decreased iff savings fell and rate < 20; in rule order; at most three |
| FinancialAnalyzer.Recommendations | services/financialAnalyzer.ts:56-80 | concentration on exactly the top category iff its share > 50; immediate action iff High; surplus iff rate ≥ 20 and risk Low; never both of the last two; in rule order |
| FinancialAnalyzer.PartsInRuleOrder | services/financialAnalyzer.ts:31-34 | messages collected rule by rule, at most one per rule, are in rule order |
| FinancialAnalyzer.NoLimitNoBudgetRule | services/financialAnalyzer.ts:46 | without a limit the risk is Low, no budget warning appears and no immediate action is recommended |
| FinancialAnalyzer.ConcentrationBoundary | services/financialAnalyzer.ts:58 | a top share of 51 triggers the concentration recommendation and 50 does not |
| FinancialAnalyzer.GenerateFinancialInsights | services/financialAnalyzer.ts:20-88 | the rules run in order and leave exactly the risk, warnings, recommendations and summary fragments above |
| Types.SavingsRate | components/FinancialHealth.tsx:12-13 | 0 without income; otherwise rate × income = savings × 100, and it is non-negative when spending is within income |
| Types.MathRound | components/FinancialHealth.tsx:56 | the result lies in (x − 0.5, x + 0.5] |
| FinancialHealth.BaseScore | components/FinancialHealth.tsx:15-20 | each score band holds exactly for its savings-rate interval |
| FinancialHealth.BaseScoreMonotone | components/FinancialHealth.tsx:15-20 | a higher rate never gives a lower base score |
| FinancialHealth.FinalScore | components/FinancialHealth.tsx:22 | the score lies in 0..100; it is the base score, minus 20 floored at 0 when a positive limit is exceeded |
| FinancialHealth.StatusOf | components/FinancialHealth.tsx:30-54 | each status holds exactly for its score band |
| FinancialHealth.CalculateFinancialHealth | components/FinancialHealth.tsx:11-57 | savings, rounded rate, score, status, and the colour and icon of each status |
| FinancialHealth.NoIncomeScores | components/FinancialHealth.tsx:13 | without income the rate is 0, the score 40 or 20, and the status Average or Critical |
| FinancialHealth.SavingsRateAntitone | components/FinancialHealth.tsx:13 | with a fixed positive income, spending more never raises the rate |
| FinancialHealth.ScoreAntitone | components/FinancialHealth.tsx:11-22 | with income and limit fixed, spending more never raises the score |
| FinancialHealth.OverspentExample | components/FinancialHealth.tsx:11-57 | income 1000, expenses 950, limit 900 gives rate 5, score 20, Critical |
| FinancialHealth.SaverExample | components/FinancialHealth.tsx:11-57 | income 1000, expenses 500, no limit gives rate 50, score 100, Excellent |
| BudgetStatus.CalculateBudgetStatus | components/BudgetStatus.tsx:11-23 | Not Set without a limit; remaining = limit − expenses; percent capped at 100 and exact below it; each status iff its condition in check order; colours per status |
| BudgetStatus.UsageScale | components/BudgetStatus.tsx:13-19 | the 80% and 100% thresholds compared in integers |
| BudgetStatus.StatusExamples | components/BudgetStatus.tsx:11-23 | (0, 0) is Not Set; (1200, 1000) is Over Limit at 100% with −200 left |
| BudgetStatus.FormatInputValue | components/BudgetStatus.tsx:30-34 | empty iff no digit was typed; otherwise its digits spell the typed number |
| BudgetStatus.HandleSave | components/BudgetStatus.tsx:40-46 | the parsed limit is never negative; NaN (nothing saved) for a field without digits; a field of digits saves as their value, and an empty field saves nothing |
| BudgetStatus.SaveFormatted | components/BudgetStatus.tsx:40-46 | a formatted limit saves as the integer its digits spell, and saves nothing without digits |
| SpendingOverview.CalculateBudgetPercentage | components/SpendingOverview.tsx:9-19 | without income: 100 or 0 spent and 0 left; with income: spent share capped at 100, exact below, and spent + left = 100 for non-negative spending |
| CategoryBreakdown.ConfigFor | components/CategoryBreakdown.tsx:39 | a configured category's colours, else those of Other |
| CategoryBreakdown.CategoryOf | components/CategoryBreakdown.tsx:35 | never empty; an empty category becomes Other |
| CategoryBreakdown.RoundedShare | components/CategoryBreakdown.tsx:43 | `Math.round(part / whole × 100)` is the share rounded half up |
| CategoryBreakdown.ShareBounds | components/CategoryBreakdown.tsx:43 | the rounded share of a part of the whole lies in 0..100 |
| CategoryBreakdown.ItemOf | components/CategoryBreakdown.tsx:38-46 | an item keeps the category and total, has the rounded share, and has the configured colours |
| CategoryBreakdown.Entries | components/CategoryBreakdown.tsx:38-46 | one item per key in key order; the items' totals sum to the totals of the keys |
| CategoryBreakdown.TotalOfPositive | components/CategoryBreakdown.tsx:30-32 | positive amounts sum to a positive total when there is any |
| CategoryBreakdown.ItemsOfKeys | components/CategoryBreakdown.tsx:38-47 | after sorting, every key has exactly one item, and every item is the item of its key |
| CategoryBreakdown.QualifyingFacts | components/CategoryBreakdown.tsx:30 | the filtered list holds exactly the positive expenses |
| CategoryBreakdown.CategoriesMatch | components/CategoryBreakdown.tsx:34-38 | the items' categories are exactly those of the positive expenses |
| CategoryBreakdown.TotalsWithinTotal | components/CategoryBreakdown.tsx:32-37 | every category total lies between 0 and the total spent |
| CategoryBreakdown.ItemShares | components/CategoryBreakdown.tsx:38-46 | every item has its key's total, a rounded share in 0..100, and its colours |
| CategoryBreakdown.NoBreakdown | components/CategoryBreakdown.tsx:31 | without a positive expense the breakdown is empty |
| CategoryBreakdown.BreakdownFacts | components/CategoryBreakdown.tsx:29-48 | the steps' results make up the breakdown |
| CategoryBreakdown.CalculateCategoryBreakdown | components/CategoryBreakdown.tsx:29-48 | empty iff no positive expense; sorted by total, largest first; one item per category of the positive expenses; each total is that category's sum; totals add up to all positive spending; rounded shares and colours |
| Seqs.Filter | components/CategoryBreakdown.tsx:30 | `filter` keeps exactly the elements that pass, with their multiplicities, in order |
| Seqs.SortDesc | components/SpendingDetails.tsx:16 | `sort` by a descending comparator gives a permutation ordered largest first |
| Seqs.SortDescHeadIsMax | components/SpendingDetails.tsx:16 | the first element after such a sort is an element with the largest key |
| Records.Accumulate | components/CategoryBreakdown.tsx:33-37 | the `forEach` leaves keys in first-seen order, each key's entry holds the sum of its amounts, and the entries add up to the whole |
| Records.GroupBy | components/TransactionList.tsx:21-28 | the `reduce` leaves keys in first-seen order, each holding its elements in list order |
| Records.KeyGroupIsFilter | components/TransactionList.tsx:21-28 | a key's group is the list filtered by that key |
| Records.GroupSizes | components/TransactionList.tsx:21-28 | the groups' sizes add up to the length of the list |
| Records.TotalPermutation | components/CategoryBreakdown.tsx:47 | reordering items does not change their total |
| SpendingDetails.HighestTransaction | components/SpendingDetails.tsx:16 | undefined iff there are no expenses; otherwise an expense with the largest amount |
| SpendingDetails.EntriesOf | components/SpendingDetails.tsx:22 | one entry per key, in key order |
| SpendingDetails.TopCategory | components/SpendingDetails.tsx:22 | undefined iff there are no keys; otherwise a key with the largest total |
| SpendingDetails.KeyOrderEmpty | components/SpendingDetails.tsx:18-21 | there are no keys iff the list is empty |
| SpendingDetails.CalculateSpendingDetails | components/SpendingDetails.tsx:12-22 | nothing for an empty month; otherwise the largest expense, the per-category expense sums keyed by the raw category, and a top category, each absent iff there is no expense |
| TransactionList.GroupByDate | components/TransactionList.tsx:21-28 | the days in first-seen order, each with its transactions in list order, and the group sizes add up to the list length |
| TransactionList.ExactlyOneGroup | components/TransactionList.tsx:21-28 | each transaction is in its own day's group and in no other |
| TransactionList.GroupKeepsOrder | components/TransactionList.tsx:26 | a day's group is a subsequence of the list |
| TransactionList.EveryDayGrouped | components/TransactionList.tsx:21-28 | every transaction's day has a group |
| TransactionList.ListTransactions | components/TransactionList.tsx:11-31 | the message iff the list is empty; otherwise the days sorted newest first, as a permutation of the grouped days, with their groups |
| JsText.SortStringsDesc | components/TransactionList.tsx:31 | a permutation of the distinct keys in strictly descending code-point order |
| JsText.CodePointLessTransitive | components/TransactionList.tsx:31 | the string order is transitive |
| JsText.CodePointLessTotal | components/TransactionList.tsx:31 | any two different strings are ordered |
| JsText.CodePointLessIrreflexive | components/TransactionList.tsx:31 | no string comes before itself |
| Types.DateKey | components/TransactionList.tsx:22 | the prefix of the date before its first T |
| Types.DayOfMonth | App.tsx:60 | a day exactly for an ISO-shaped date, given by its two day digits |
| JsText.KeepDigits | components/TransactionForm.tsx:21 | only digits remain, each digit as often as in the text and in the text's order; empty iff the text has no digit |
| JsText.FormatIntegerInput | components/TransactionForm.tsx:20-27 | empty iff no digit was typed |
| JsText.FormatIntegerInputIdempotent | components/TransactionForm.tsx:20-27 | formatting an already formatted amount changes nothing |
| JsText.GroupedDigits | components/TransactionForm.tsx:26 | stripping the commas from a grouped number gives back the number |
| JsText.GroupedHasNoDot | components/BudgetStatus.tsx:41 | a grouped number has no full stop, so both strippings agree on it |
| JsText.ParseFloatPrefix | components/BudgetStatus.tsx:41 | NaN for a text without a digit; on digits only, NaN for the empty text and otherwise the value of the digits; never negative |
| JsText.Trim | components/TransactionForm.tsx:40 | empty iff the text is all white space; otherwise neither end is white space |
| JsText.ParseInt | components/MonthSelector.tsx:24 | a text that starts with a digit reads as the value of its leading run of digits |
| JsText.ParseIntNeedsDigit | components/MonthSelector.tsx:24 | a text without a digit, a blank one included, is NaN |
| JsText.ParseIntDigits | components/MonthSelector.tsx:24 | `parseInt` of a non-empty run of digits is their value |
| JsText.NatToStringDigits | components/MonthSelector.tsx:57 | `String(n)` is a non-empty run of digits that spells n and has no `-` |
| JsText.DigitsValueAppend | components/MonthSelector.tsx:57 | the value of concatenated digits is the first value shifted by the second's length, plus the second value |
| JsText.PadStart2 | components/MonthSelector.tsx:57 | two characters or more, ending in the original text, with only '0' filled in front |
| JsText.PrefixBefore | components/MonthSelector.tsx:23 | the text before the first separator, which it does not contain |
| JsText.JoinSpaceShape | services/financialAnalyzer.ts:83 | the join's length is the parts' lengths plus the separators; one part joins to itself; two or more join to the first part, a space and the join of the rest |
| JsText.JoinSpaceFront | services/financialAnalyzer.ts:83 | `join(' ')` of two or more parts is the first part, a space and the join of the rest |
| MonthSelector.MakeDate | components/MonthSelector.tsx:24 | a valid month index, counting the same months as the full year and the raw index |
| MonthSelector.SplitYearMonth | components/MonthSelector.tsx:23 | the year part is the text before the first `-`; the month part is absent iff there is no `-` |
| MonthSelector.ParseCurrentMonth | components/MonthSelector.tsx:23-24 | a readable key always gives a month index of 0..11 |
| JsText.KeepDigitsAndDots | components/BudgetStatus.tsx:41 | only digits and full stops remain, each as often as in the text and in the text's order; a text of digits is kept whole |
| MonthSelector.MonthKey | components/MonthSelector.tsx:57 | the key starts with the year's sign or first digit and ends in a dash and the two digits of the month number |
| MonthSelector.MonthDigits | components/MonthSelector.tsx:57 | a month number padded to two characters is its tens and units digits |
| MonthSelector.PaddedTwoDigits | components/MonthSelector.tsx:57 | a day or month number padded to two characters is two digits that spell it |
| MonthSelector.TargetOf | components/MonthSelector.tsx:55-57 | "NaN-NaN" for an invalid date, otherwise a key starting with a sign or a digit |
| MonthSelector.NavigateTarget | components/MonthSelector.tsx:53-58 | an unreadable month navigates to "NaN-NaN", a readable one to a key starting with a sign or a digit |
| MonthSelector.ParseMonthKey | components/MonthSelector.tsx:23-24 | a key the selector writes (year ≥ 100) reads back as its month |
| MonthSelector.DaysInMonth | components/MonthSelector.tsx:29-30 | 28..31 days, 29 iff February of a leap year, 30 for April, June, September and November |
| MonthSelector.TotalDays | components/MonthSelector.tsx:29-30 | 0 for an invalid date, otherwise the month's length |
| MonthSelector.TotalDaysOfKey | components/MonthSelector.tsx:28-31 | a written key has the days of its month |
| MonthSelector.DaysArrayContents | components/MonthSelector.tsx:31 | the day buttons are 1..totalDays, each once and increasing |
| MonthSelector.NavigateFormula | components/MonthSelector.tsx:53-58 | delta months on is year + floor((index + delta) / 12), index (index + delta) mod 12 |
| MonthSelector.MakeDateCarry | components/MonthSelector.tsx:55 | from year 100 on, the month index carries into the year by floor division |
| MonthSelector.DecemberForward | components/MonthSelector.tsx:53-58 | December forward is January of the next year |
| MonthSelector.JanuaryBack | components/MonthSelector.tsx:53-58 | January back is December of the previous year |
| MonthSelector.ForwardBack | components/MonthSelector.tsx:53-58 | one month forward then one back returns to the same key |
| MonthSelector.UnreadableKey | components/MonthSelector.tsx:53-58 | an unreadable key navigates to "NaN-NaN" |
| MonthSelector.February2024Key | components/MonthSelector.tsx:57 | the key of February 2024 is "2024-02" |
| TransactionForm.CategoryChoices | components/TransactionForm.tsx:10-11 | the buttons offered for each type, always including Other |
| TransactionForm.ParseAmount | components/TransactionForm.tsx:38 | NaN iff the field has no digit; otherwise a non-negative whole number |
| TransactionForm.AmountIsParseFloat | components/TransactionForm.tsx:38 | the amount equals `parseFloat` of the field's kept digits, NaN included |
| TransactionForm.AmountRoundTrip | components/TransactionForm.tsx:20-27 | what the amount field shows after an edit parses back to the number the typed digits spell |
| TransactionForm.Submission | components/TransactionForm.tsx:36-54 | rejected iff the title is blank or the amount is NaN or ≤ 0; otherwise the title, amount, type, category (Other when none), id and date; from a formatted field the amount is the one the field shows |
| TransactionForm.ChosenCategoryKept | components/TransactionForm.tsx:52 | a category picked from the buttons is the submitted category |
| TransactionForm.ClickThenSubmit | components/TransactionForm.tsx:29-54 | category click, amount edit, submit: accepted iff the typed digits spell a positive number, and title and category are then the clicked one |
| TransactionForm.Form.constructor | components/TransactionForm.tsx:14-17 | an empty form set to expense |
| TransactionForm.Form.HandleAmountChange | components/TransactionForm.tsx:20-27 | the field shows the formatted digits, or nothing, and stays formatted |
| TransactionForm.Form.HandleTitleChange | components/TransactionForm.tsx:130 | the title becomes the typed text |
| TransactionForm.Form.HandleCategoryClick | components/TransactionForm.tsx:29-34 | the category and the title both become the clicked category |
| TransactionForm.Form.SelectType | components/TransactionForm.tsx:77-98 | the type is set and the category cleared |
| TransactionForm.FormattedAmountReads | components/TransactionForm.tsx:20-27 | a non-empty amount field that formatting leaves unchanged reads as an amount whose grouped numeral it shows |
| TransactionForm.Form.HandleSubmit | components/TransactionForm.tsx:36-60 | the transaction added is the submission of the old fields, with the amount the field showed; a rejected entry changes nothing; an accepted one clears title, amount and category and keeps the type |
| BudgetApp.ReadMonth | App.tsx:49-51 | a stored month's data, otherwise zero income, zero limit and no transactions |
| BudgetApp.Merge | App.tsx:82-90 | each field an update sets replaces the old one; the rest stay |
| BudgetApp.MergeLaws | App.tsx:82-90 | an empty update changes nothing; applying an update twice is applying it once; two updates compose |
| BudgetApp.MonthlyStats | App.tsx:66-80 | income and expense sums of the month, their difference and the limit; the two sums make up the month's total |
| BudgetApp.IncomeExpenseSplit | App.tsx:66-72 | the income and expense totals add up to the total of all amounts |
| BudgetApp.StatsOfPrepend | App.tsx:105 | a prepended transaction adds its amount to its own kind's total only |
| BudgetApp.FilterByDay | App.tsx:57-63 | the whole month without a day filter; otherwise exactly the transactions dated on that day, with their multiplicities, in order |
| BudgetApp.RemoveById | App.tsx:169 | exactly the transactions with another id remain, with their multiplicities, in order |
| BudgetApp.RemoveAbsentId | App.tsx:169 | deleting an id nobody carries changes nothing |
| BudgetApp.AddThenRemove | App.tsx:169 | adding a transaction with a fresh id and deleting that id gives back the old list |
| BudgetApp.DayToUse | App.tsx:96 | the selected day, else today's day in the current month, else 1 |
| BudgetApp.Stamp | App.tsx:98-102 | for a four-digit year: the month key and a dash lead, 'T' and the time of day close, and a day of 1..31 takes two characters between them |
| BudgetApp.StampReadsBack | App.tsx:98-102 | the stamped date reads back on the chosen day, under that month-and-day key |
| BudgetApp.Prepended | App.tsx:100-105 | the stamped transaction in front of the old list |
| BudgetApp.AddedShowsUnderSelectedDay | App.tsx:92-107 | a transaction added with a day selected is first in that day's timeline, ahead of what it showed before |
| BudgetApp.App.constructor | App.tsx:22-29 | the persisted store and month, with no day filter |
| BudgetApp.App.ActiveData | App.tsx:49-51 | the viewed month's stored data, or zero income, zero limit and no transactions |
| BudgetApp.App.FilteredTransactions | App.tsx:57-63 | the viewed month's transactions without a day filter; with one, exactly those dated that day, in stored order |
| BudgetApp.App.Stats | App.tsx:66-80 | income and expense sums over the whole viewed month whatever the day filter, summing to its total; balance is their difference; the month's limit |
| BudgetApp.App.UpdateMonthData | App.tsx:82-90 | the viewed month's entry becomes its old data merged with the update; every other month keeps its entry or its absence |
| BudgetApp.App.AddTransaction | App.tsx:92-107 | the viewed month's list becomes the stamped transaction in front of the old list; income, limit and other months unchanged |
| BudgetApp.App.DeleteTransaction | App.tsx:169 | the viewed month's list loses exactly the transactions with the id; everything else unchanged |
| BudgetApp.App.ChangeLimit | App.tsx:132 | only the viewed month's limit changes |
| BudgetApp.App.SelectDay | App.tsx:123 | the day filter becomes the chosen day, or none |
| BudgetApp.App.NavigateMonth | components/MonthSelector.tsx:53-58 | the day filter is cleared and the viewed month becomes the navigation target |

## Left out

- Rendering, styling, animations, the dark-mode toggle and the focus `setTimeout`: no logic that the figures depend on.
- Message text:
  - The warning and recommendation strings are constructors.
  - The overage's `Intl.NumberFormat` grouping in the budget warning is not modelled; the overage is kept as a number.
- Locale:
  - `toLocaleString`/`toLocaleDateString` month and day names and the header date format are not modelled.
  - `localeCompare` is taken as code-point order on the characters. Locale collation, and UTF-16 code-unit order for characters outside the Basic Multilingual Plane (U+1F600 sorts after U+FFFD here, before it in UTF-16), are not modelled; the keys sorted are ASCII dates.
- Floating point:
  - Reals are exact, so IEEE rounding of `expenses / limit * 100` and the like is not modelled.
  - NaN appears only as the failed parse (`None`).
  - Large numbers lose no precision in `parseInt`/`parseFloat`.
- Time zones:
  - Dates are read in UTC.
  - `new Date(year, month - 1, day, …)` in `addTransaction` is built in local time and written with `toISOString`; for a four-digit year the model writes the same year, month, day and time of day as UTC.
  - A day past the end of the month is not carried into the next month.
  - The `RangeError` of `toISOString` on an invalid date is not modelled.
- BudgetApp.App.AddTransaction: requires a well-formed day filter (1..31) and a clock day of 1..31, which the day buttons and the clock always give.
- BudgetApp.StampReadsBack: proved only for a well-formed `YYYY-MM` month key.
- BudgetApp.Stamp, BudgetApp.App.AddTransaction and BudgetApp.AddedShowsUnderSelectedDay: the stamp copies the month key as it is, while `addTransaction` re-reads it with `split('-').map(Number)` and `new Date(year, month - 1, …)` and writes it back with `toISOString`. A key whose year lies outside 1000..9999 is stamped differently: `new Date` reads 0..99 as 1900..1999, and `toISOString` pads the year to four digits or writes `+0YYYYY` from 10000 on. Such keys are reached only by navigating centuries away ("99-12" is one month before "100-01"); there the source stamps "1999-12-05T…" and shows the transaction under day 5, while the model's stamp matches no day filter. `AddedShowsUnderSelectedDay` is proved only for `YYYY-MM` keys.
- Records.KeyOrder and CategoryBreakdown.ConfigFor: keys are taken as own, non-index property names. JavaScript lists integer-like keys such as "1" first in `Object.entries`, and inherited names behave differently: `CATEGORY_CONFIG["toString"]` is a truthy function (no colour, where the model gives Other's) and `categoriesMap["constructor"] || 0` concatenates as a string. Only the form's fixed category names reach these objects.
- JsText.ParseInt: base 10 only. The `0x`/`0X` prefix that makes `parseInt` read hexadecimal (`parseInt("0x7E8")` is 2024) is not modelled; the model reads 0 there. Month keys are decimal.
- MonthSelector.MakeDate and MonthSelector.ParseCurrentMonth: the `Date` range limit (about year 275760 either side of 1970) is not modelled. Beyond it the source has an invalid date, a "NaN-NaN" key and no days; the model still has a month there.
- Types.DayOfMonth and Types.HasIsoDate: check the ISO shape only, not that the month and day exist. `new Date("2024-13-05T00:00:00Z").getDate()` is NaN, so that transaction matches no day filter; the model reads day 5.
- MonthSelector.ParseMonthKey, MonthSelector.NavigateFormula and MonthSelector.ForwardBack: proved from year 100 on. Below that, the `Date` constructor reads years 0 to 99 as 1900 to 1999, and `MakeDate` models that.
- FinancialAnalyzer.GenerateFinancialInsights: returns the summary as its fragments; the string the source returns is `SummaryText` of them.
- Sort tie order: the sorts are stable insertion sorts, but the order among equal totals is not stated in any contract.
- The id (`Date.now()` and `Math.random()`), the submit time, `alert` and the clock are parameters or left out.
- The `localStorage` load and save, login and signup, Firebase, the AI tips service and the filter controls are outside the modelled logic.
- `MonthData.income` is carried by the store and by `Merge` but never read by the modelled figures.
- The budget card's saved limit: `onLimitChange` receives `parseFloat` of the field. The store keeps an integer limit, which `BudgetStatus.SaveFormatted` justifies: a formatted field always parses to a whole number.
